/**
 The repeated-addition fixture: test cases from integer arithmetic, replayed
 through the reference simulator over the stored single copy of the circuit.
 */
module Fixture {
  import opened Wrappers
  import opened Binary
  import opened Circuits
  import Classical
  import Gtv1
  import opened Reference
  import opened Registers
  import Kickmix
  import Transpiler
  import Adder
  import AdderStatement
  import Simulator
  import opened Xof
  import FiatShamir
  import AirRelations
  import AirSoundness

  const SIM_BUDGET_GATE_STEPS: nat := 25_000_000

  /** The input and the expected output state of a test case. */
  datatype TestCase = TestCase(x: seq<bv8>, y: seq<bv8>)

  /** How cross-validation ends: how many cases were replayed, or what stopped it. */
  datatype Validation =
    | Validated(replayed: nat)
    | CrossValidationFail(index: nat)
    | SimulatorFailed(error: SimError)
    | ZeroDivision

  // ---------------------------------------------------------------- replaying one case

  /** `k` runs of the gate list. */
  function Times(gates: seq<Gtv1.Gate>, bits: seq<bool>, k: nat): (r: Result<seq<bool>, SimError>)
    ensures r.Ok? ==> |r.value| == |bits|
  {
    if k == 0 then Ok(bits)
    else match Times(gates, bits, k - 1)
      case Err(e) => Err(e)
      case Ok(b) => RunGates(gates, b)
  }

  lemma {:induction false} TimesStuck(gates: seq<Gtv1.Gate>, bits: seq<bool>, k: nat, n: nat)
    requires k <= n && Times(gates, bits, k).Err?
    ensures Times(gates, bits, n) == Times(gates, bits, k)
  {
    if k < n {
      TimesStuck(gates, bits, k, n - 1);
    }
  }

  method Replay(gates: seq<Gtv1.Gate>, x: seq<bv8>, repetitions: nat) returns (r: Result<seq<bv8>, SimError>)
    ensures r.Ok? <==> Times(gates, Unpack(x), repetitions).Ok?
    ensures r.Ok? ==> Ok(Unpack(r.value)) == Times(gates, Unpack(x), repetitions)
    ensures r.Err? ==> Err(r.error) == Times(gates, Unpack(x), repetitions)
  {
    hide Unpack, RunGates;
    var state := x;
    for k := 0 to repetitions
      invariant Times(gates, Unpack(x), k) == Ok(Unpack(state))
    {
      var next := Run(gates, state);
      if next.Err? {
        TimesStuck(gates, Unpack(x), k + 1, repetitions);
        return Err(next.error);
      }
      state := next.value;
    }
    return Ok(state);
  }

  // ---------------------------------------------------------------- cross-validation

  /** As many cases as fit the budget, at least one. */
  function ReplayCount(cases: nat, steps: nat): nat
    requires steps > 0
  {
    Min(cases, Max(1, SIM_BUDGET_GATE_STEPS / steps))
  }

  function ValidateFrom(gates: seq<Gtv1.Gate>, cases: seq<TestCase>, repetitions: nat, i: nat, n: nat): Validation
    requires i <= n <= |cases|
    decreases n - i
  {
    if i == n then Validated(n)
    else match Times(gates, Unpack(cases[i].x), repetitions)
      case Err(e) => SimulatorFailed(e)
      case Ok(bits) =>
        if bits != Unpack(cases[i].y) then CrossValidationFail(i)
        else ValidateFrom(gates, cases, repetitions, i + 1, n)
  }

  function Validate(gates: seq<Gtv1.Gate>, cases: seq<TestCase>, repetitions: nat): Validation {
    var steps := |gates| * repetitions;
    if steps == 0 then ZeroDivision
    else ValidateFrom(gates, cases, repetitions, 0, ReplayCount(|cases|, steps))
  }

  method SimCrossValidate(gates: seq<Gtv1.Gate>, cases: seq<TestCase>, repetitions: nat) returns (v: Validation)
    ensures v == Validate(gates, cases, repetitions)
  {
    hide Times, Unpack;
    var steps := |gates| * repetitions;
    if steps == 0 {
      return ZeroDivision;
    }
    var n := ReplayCount(|cases|, steps);
    for i := 0 to n
      invariant ValidateFrom(gates, cases, repetitions, i, n) == Validate(gates, cases, repetitions)
    {
      var state := Replay(gates, cases[i].x, repetitions);
      if state.Err? {
        return SimulatorFailed(state.error);
      }
      if state.value != cases[i].y {
        if Unpack(state.value) == Unpack(cases[i].y) {
          UnpackInjective(state.value, cases[i].y);
        }
        return CrossValidationFail(i);
      }
    }
    return Validated(n);
  }

  // ---------------------------------------------------------------- building the cases

  /** Both registers of a state, as the dictionary `{r0: acc, r1: offset}`. */
  function StateValues(acc: nat, offset: nat): seq<(nat, int)> {
    [(0, acc), (1, offset)]
  }

  function EncodedBits(acc: nat, offset: nat, layout: seq<RegisterEntry>, numBytes: nat)
    : Result<seq<bool>, RegisterError>
  {
    EncodeBits(StateValues(acc, offset), layout, seq(8 * numBytes, i => false), 2)
  }

  /** The case holds the encodings of `(x, y)` and of `((x + K*y) mod modulus, y)`. */
  ghost predicate IsCase(
    c: TestCase, x: nat, y: nat, repetitions: nat, modulus: nat, layout: seq<RegisterEntry>, numBytes: nat)
    requires modulus > 0
  {
    && Ok(Unpack(c.x)) == EncodedBits(x, y, layout, numBytes)
    && Ok(Unpack(c.y)) == EncodedBits((x + repetitions * y) % modulus, y, layout, numBytes)
  }

  method BuildCases(
    pairs: seq<(nat, nat)>, repetitions: nat, width: nat, layout: seq<RegisterEntry>, numBytes: nat)
    returns (r: Result<seq<TestCase>, RegisterError>)
    ensures r.Ok? ==> |r.value| == |pairs|
    ensures r.Ok? ==> forall i | 0 <= i < |pairs| ::
      IsCase(r.value[i], pairs[i].0, pairs[i].1, repetitions, Pow2(width), layout, numBytes)
    ensures r.Err? ==> exists i | 0 <= i < |pairs| ::
      || EncodedBits(pairs[i].0, pairs[i].1, layout, numBytes).Err?
      || EncodedBits((pairs[i].0 + repetitions * pairs[i].1) % Pow2(width), pairs[i].1, layout, numBytes).Err?
  {
    hide EncodeBits, Unpack, Pow2;
    var modulus := Pow2(width);
    var cases := [];
    for i := 0 to |pairs|
      invariant |cases| == i
      invariant forall j | 0 <= j < i ::
        IsCase(cases[j], pairs[j].0, pairs[j].1, repetitions, modulus, layout, numBytes)
    {
      var x, y := pairs[i].0, pairs[i].1;
      var acc := (x + repetitions * y) % modulus;
      var xState := EncodeRegisters(StateValues(x, y), layout, numBytes);
      if xState.Err? {
        return Err(xState.error);
      }
      var yState := EncodeRegisters(StateValues(acc, y), layout, numBytes);
      if yState.Err? {
        return Err(yState.error);
      }
      cases := cases + [TestCase(xState.value, yState.value)];
    }
    return Ok(cases);
  }

  // ---------------------------------------------------------------- the adder family

  /** The two registers of the adder, the layout the transpiler recovers. */
  function AdderLayout(n: nat): seq<RegisterEntry> {
    AdderStatement.TwoRegisters([], n).registers
  }

  lemma {:induction false} AdderLookup(n: nat)
    ensures Lookup(AdderLayout(n), 0) == Some(AdderStatement.Range(0, n))
    ensures Lookup(AdderLayout(n), 1) == Some(AdderStatement.Range(n, n))
  {
    assert AdderLayout(n)[1..] == [RegisterEntry(1, AdderStatement.Range(n, n))];
  }

  /** Encoding `(acc, offset)` puts the two numbers side by side and zeros behind. */
  lemma {:induction false} AdderEncodes(n: nat, acc: nat, offset: nat, numBytes: nat)
    requires 2 * n <= 8 * numBytes && acc < Pow2(n) && offset < Pow2(n)
    ensures EncodedBits(acc, offset, AdderLayout(n), numBytes)
         == Ok(BitsOf(acc, n) + BitsOf(offset, n) + seq(8 * numBytes - 2 * n, i => false))
  {
    hide Simulator.Loaded, Lookup, BitsOf, Pow2;
    var zero := seq(8 * numBytes, i => false);
    var values, layout := StateValues(acc, offset), AdderLayout(n);
    AdderLookup(n);
    Small(acc, n);
    Small(offset, n);
    AdderStatement.LoadedRange(zero, 0, n, acc);
    var b1 := Simulator.Loaded(zero, AdderStatement.Range(0, n), acc, n);
    assert EncodeBits(values, layout, zero, 0) == Ok(zero);
    assert EncodeBits(values, layout, zero, 1) == Ok(b1);
    AdderStatement.LoadedRange(b1, n, n, offset);
    var b2 := Simulator.Loaded(b1, AdderStatement.Range(n, n), offset, n);
    assert EncodeBits(values, layout, zero, 2) == Ok(b2);
    assert b2 == BitsOf(acc, n) + BitsOf(offset, n) + seq(8 * numBytes - 2 * n, i => false);
  }

  lemma {:induction false} Small(v: nat, n: nat)
    requires v < Pow2(n)
    ensures Residue(v, n) == v
  {
    DivModUnique(v, Pow2(n), 0, v);
  }

  /** Running a list `k` times is running the list repeated `k` times. */
  lemma {:induction false} TimesIsRepeat(gs: seq<Classical.Gate>, bits: seq<bool>, k: nat)
    requires Classical.AllFit(gs, |bits|)
    ensures Classical.AllFit(Classical.Repeat(gs, k), |bits|)
    ensures Times(EmitAll(gs), bits, k) == Ok(Classical.ApplyAll(Classical.Repeat(gs, k), bits))
  {
    if k > 0 {
      TimesIsRepeat(gs, bits, k - 1);
      var done := Classical.ApplyAll(Classical.Repeat(gs, k - 1), bits);
      RunEmitted(gs, done);
      RepeatSnoc(gs, k);
      Classical.ApplyConcat(Classical.Repeat(gs, k - 1), gs, bits);
    }
  }

  lemma {:induction false} RepeatSnoc(gs: seq<Classical.Gate>, k: nat)
    requires k > 0
    ensures Classical.Repeat(gs, k) == Classical.Repeat(gs, k - 1) + gs
  {
    if k > 1 {
      RepeatSnoc(gs, k - 1);
      assert gs + (Classical.Repeat(gs, k - 2) + gs) == (gs + Classical.Repeat(gs, k - 2)) + gs;
    }
  }

  /** The state after the run, from the values of its two registers. */
  lemma {:induction false} ResultBits(n: nat, q: seq<bool>, acc: nat, offset: nat)
    requires |q| == 2 * n && BitsValue(q[..n]) == acc && BitsValue(q[n..]) == offset
    ensures q == BitsOf(acc, n) + BitsOf(offset, n)
  {
    BitsOfValue(q[..n]);
    BitsOfValue(q[n..]);
    assert q == q[..n] + q[n..];
  }

  /** What the stored gate list does to an encoded pair, run `k` times. */
  lemma {:induction false} TimesOnPair(n: nat, k: nat, x: nat, y: nat, padding: seq<bool>)
    requires n >= 3 && x < Pow2(n) && y < Pow2(n)
    ensures Times(EmitAll(Adder.AdderGates(n)), BitsOf(x, n) + BitsOf(y, n) + padding, k)
         == Ok(BitsOf((x + k * y) % Pow2(n), n) + BitsOf(y, n) + padding)
  {
    var q, gs := AdderStatement.Start(n, x, y), Classical.Repeat(Adder.AdderGates(n), k);
    assert q == BitsOf(x, n) + BitsOf(y, n);
    AdderStatement.AdderFits(n, 1);
    RepeatOne(Adder.AdderGates(n));
    Adder.RepeatedAdderAdds(n, k, q);
    var q' := Classical.ApplyAll(gs, q);
    AdderStatement.AdderResult(n, k, x, y, q');
    ResultBits(n, q', (x + k * y) % Pow2(n), y);
    Transpiler.ApplyAllFrame(gs, q, padding);
    Transpiler.FitsMonotone(Adder.AdderGates(n), 2 * n, |q + padding|);
    hide *;
    TimesIsRepeat(Adder.AdderGates(n), q + padding, k);
  }

  lemma {:induction false} RepeatOne(gs: seq<Classical.Gate>)
    ensures Classical.Repeat(gs, 1) == gs
  {
    assert Classical.Repeat(gs, 0) == [];
  }

  /**
   The K-fold law: from an encoded pair, K runs of the stored adder give bit for
   bit the encoding of `((x + K*y) mod 2^n, y)`, at every width and every K.
   */
  lemma {:induction false} FixtureLaw(n: nat, k: nat, x: nat, y: nat, numBytes: nat)
    requires n >= 3 && x < Pow2(n) && y < Pow2(n) && 2 * n <= 8 * numBytes
    ensures EncodedBits(x, y, AdderLayout(n), numBytes).Ok?
    ensures Times(EmitAll(Adder.AdderGates(n)), EncodedBits(x, y, AdderLayout(n), numBytes).value, k).Ok?
    ensures Times(EmitAll(Adder.AdderGates(n)), EncodedBits(x, y, AdderLayout(n), numBytes).value, k).value
         == BitsOf((x + k * y) % Pow2(n), n) + BitsOf(y, n) + seq(8 * numBytes - 2 * n, i => false)
    ensures EncodedBits((x + k * y) % Pow2(n), y, AdderLayout(n), numBytes)
         == Ok(BitsOf((x + k * y) % Pow2(n), n) + BitsOf(y, n) + seq(8 * numBytes - 2 * n, i => false))
  {
    hide Times, EncodedBits, BitsOf, Pow2, Adder.AdderGates;
    AdderEncodes(n, x, y, numBytes);
    AdderEncodes(n, (x + k * y) % Pow2(n), y, numBytes);
    TimesOnPair(n, k, x, y, seq(8 * numBytes - 2 * n, i => false));
  }

  /** Cross-validation of the adder never fails: every replayed case agrees with the integer arithmetic. */
  lemma {:induction false} CrossValidationPasses(
    n: nat, k: nat, pairs: seq<(nat, nat)>, cases: seq<TestCase>, numBytes: nat, i: nat, m: nat)
    requires n >= 3 && 2 * n <= 8 * numBytes && |cases| == |pairs| && i <= m <= |cases|
    requires forall j | 0 <= j < |pairs| :: pairs[j].0 < Pow2(n) && pairs[j].1 < Pow2(n)
    requires forall j | 0 <= j < |pairs| ::
      IsCase(cases[j], pairs[j].0, pairs[j].1, k, Pow2(n), AdderLayout(n), numBytes)
    ensures ValidateFrom(EmitAll(Adder.AdderGates(n)), cases, k, i, m) == Validated(m)
    decreases m - i
  {
    hide Times, EncodedBits, BitsOf, Pow2, Unpack, AdderLayout, Adder.AdderGates, EmitAll;
    if i < m {
      FixtureLaw(n, k, pairs[i].0, pairs[i].1, numBytes);
      assert IsCase(cases[i], pairs[i].0, pairs[i].1, k, Pow2(n), AdderLayout(n), numBytes);
      CrossValidationPasses(n, k, pairs, cases, numBytes, i + 1, m);
    }
  }

  lemma {:induction false} AdderLayoutGood(n: nat, width: nat)
    requires 2 * n <= width
    ensures GoodLayout(AdderLayout(n), width)
  {
    assert Apart(AdderStatement.Range(0, n), AdderStatement.Range(n, n));
    assert Apart(AdderStatement.Range(n, n), AdderStatement.Range(0, n));
  }

  lemma {:induction false} StateLastValues(acc: nat, y: nat)
    ensures LastValue(StateValues(acc, y), 0, 2) == acc && LastValue(StateValues(acc, y), 1, 2) == y
  {
  }

  /** Decoding the simulated state gives `(x + K*y) mod 2^n` and the unchanged offset. */
  lemma {:induction false} DecodedResult(n: nat, acc: nat, y: nat, numBytes: nat)
    requires n >= 3 && 2 * n <= 8 * numBytes && acc < Pow2(n) && y < Pow2(n)
    ensures EncodedBits(acc, y, AdderLayout(n), numBytes).Ok?
    ensures DecodeBits(EncodedBits(acc, y, AdderLayout(n), numBytes).value, AdderLayout(n), 2) == Some([acc, y])
  {
    var layout := AdderLayout(n);
    assert |layout| == 2 && layout[0].id == 0 && layout[1].id == 1;
    assert |layout[0].members| == n && |layout[1].members| == n;
    AdderEncodes(n, acc, y, numBytes);
    AdderLayoutGood(n, 8 * numBytes);
    StateLastValues(acc, y);
    hide AdderLayout, EncodeBits, DecodeBits, Pow2, LastValue, GoodLayout, BitsOf;
    EncodeThenDecode(StateValues(acc, y), layout, 8 * numBytes);
    AdderStatement.SmallMod(acc, Pow2(n));
    AdderStatement.SmallMod(y, Pow2(n));
    var decoded := DecodeBits(EncodedBits(acc, y, layout, numBytes).value, layout, 2).value;
    assert decoded[0] == acc && decoded[1] == y;
    assert decoded == [acc, y];
  }

  // ---------------------------------------------------------------- transpiling the adder file

  lemma {:induction false} DeclarationAccepted(n: nat, k: nat)
    requires k < 2 * n + 2 && 2 * n <= 0x1_0000
    ensures Transpiler.Accepted(AdderStatement.Declaration(n, k))
    ensures !Transpiler.IsClassical(AdderStatement.Declaration(n, k).opcode)
  {
  }

  lemma {:induction false} GateAccepted(g: Classical.Gate)
    requires Classical.Fits(g, 0x1_0000)
    ensures Transpiler.Accepted(Classical.Encode(g)) && Transpiler.IsClassical(Classical.Encode(g).opcode)
    ensures Transpiler.ToGate(Classical.Encode(g)) == Some(g)
  {
  }

  lemma {:induction false} NoGatesBehindDeclarations(lines: seq<Kickmix.Instruction>, n: nat, k: nat)
    requires 2 * n <= 0x1_0000 && k <= 2 * n + 2 <= |lines|
    requires forall i | 0 <= i < 2 * n + 2 :: lines[i] == AdderStatement.Declaration(n, i)
    ensures forall i | 0 <= i < k :: Transpiler.Accepted(lines[i])
    ensures Transpiler.GatesBehind(lines, k) == []
  {
    hide AdderStatement.Declaration, Transpiler.Accepted, Transpiler.ToGate, Transpiler.IsClassical;
    if k > 0 {
      NoGatesBehindDeclarations(lines, n, k - 1);
      DeclarationAccepted(n, k - 1);
    }
  }

  /** The gates behind register declarations followed by gates are those gates. */
  lemma {:induction false} GatesBehindGates(lines: seq<Kickmix.Instruction>, d: nat, gs: seq<Classical.Gate>, k: nat)
    requires d <= k <= |lines| == d + |gs| && forall i | 0 <= i < |gs| :: lines[d + i] == Classical.Encode(gs[i])
    requires forall i | 0 <= i < d :: Transpiler.Accepted(lines[i])
    requires Transpiler.GatesBehind(lines, d) == [] && Classical.AllFit(gs, 0x1_0000)
    ensures forall i | 0 <= i < k :: Transpiler.Accepted(lines[i])
    ensures Transpiler.GatesBehind(lines, k) == gs[..k - d]
  {
    hide Classical.Encode, Transpiler.Accepted, Transpiler.ToGate, Transpiler.IsClassical;
    if k > d {
      GatesBehindGates(lines, d, gs, k - 1);
      var g := gs[k - 1 - d];
      assert g in gs && lines[d + (k - 1 - d)] == Classical.Encode(g);
      GateAccepted(g);
      assert gs[..k - d] == gs[..k - 1 - d] + [g];
    }
  }

  lemma {:induction false} FileGates(lines: seq<Kickmix.Instruction>, n: nat, gs: seq<Classical.Gate>)
    requires lines == AdderStatement.Declarations(n) + Classical.EncodeAll(gs)
    requires 2 * n <= 0x1_0000 && Classical.AllFit(gs, 0x1_0000)
    ensures forall i | 0 <= i < |lines| :: Transpiler.Accepted(lines[i])
    ensures Transpiler.GatesBehind(lines, |lines|) == gs
  {
    hide *;
    AdderStatement.FileLines(n, gs, lines);
    NoGatesBehindDeclarations(lines, n, 2 * n + 2);
    GatesBehindGates(lines, 2 * n + 2, gs, |lines|);
    assert gs[..|gs|] == gs;
  }

  lemma {:induction false} TranspilesFile(lines: seq<Kickmix.Instruction>, n: nat, gs: seq<Classical.Gate>)
    requires lines == AdderStatement.Declarations(n) + Classical.EncodeAll(gs)
    requires 2 * n <= 0x1_0000 && Classical.AllFit(gs, 2 * n)
    ensures Transpiler.Transpile(lines) == Ok(Transpiler.KmxCircuit(EmitAll(gs), AdderLayout(n), 2 * n))
  {
    Transpiler.FitsMonotone(gs, 2 * n, 0x1_0000);
    assert AdderStatement.TwoRegisters(lines, n).registers == AdderLayout(n);
    hide AdderStatement.Declarations, Classical.EncodeAll, Transpiler.TranspilePrefix, ParsePrefix,
      Transpiler.GatesBehind, Transpiler.Accepted, AdderLayout, Classical.AllFit, AdderStatement.Range;
    AdderStatement.ParsesToTwoRegisters(lines, n, gs);
    FileGates(lines, n, gs);
    Transpiler.TranspileMatchesParse(lines, |lines|);
  }

  /** Up to 16-bit wires, the adder file transpiles to one stored copy of the adder over the two registers. */
  lemma {:induction false} AdderTranspiles(n: nat)
    requires 3 <= n && 2 * n <= 0x1_0000
    ensures Transpiler.Transpile(AdderStatement.AdderFile(n, 1))
         == Ok(Transpiler.KmxCircuit(EmitAll(Adder.AdderGates(n)), AdderLayout(n), 2 * n))
  {
    RepeatOne(Adder.AdderGates(n));
    AdderStatement.AdderFits(n, 1);
    hide Transpiler.Transpile, Adder.AdderGates, Classical.Repeat;
    TranspilesFile(AdderStatement.AdderFile(n, 1), n, Adder.AdderGates(n));
  }

  // ---------------------------------------------------------------- one adder case, in the smallest state

  /** The smallest byte width whose bits cover the qubits. */
  lemma {:induction false} MinStateIsLeast(numQubits: nat, numBytes: nat)
    ensures numQubits <= 8 * numBytes <==> MinStateBytes(numQubits) <= numBytes
  {
  }

  /** Every transpiled circuit runs in its smallest state: no gate indexes outside it. */
  lemma {:induction false} MinStateRuns(lines: seq<Kickmix.Instruction>, bits: seq<bool>)
    requires Transpiler.Transpile(lines).Ok?
    requires |bits| == 8 * MinStateBytes(Transpiler.Transpile(lines).value.numQubits)
    ensures RunGates(Transpiler.Transpile(lines).value.gates, bits).Ok?
  {
    var n := Transpiler.Transpile(lines).value.numQubits;
    MinStateIsLeast(n, MinStateBytes(n));
    var m := Kickmix.Machine(bits[..n], [], false, [], 0);
    assert bits == m.qubits + bits[n..];
    hide Transpiler.Transpile, RunGates;
    Transpiler.TranspilePreservesMeaning(lines, m, bits[n..], _ => false);
  }

  /** The values of registers r0 and r1 in a decoded layout. */
  function AdderValues(layout: seq<RegisterEntry>, decoded: seq<nat>): Option<(nat, nat)>
    requires |decoded| == |layout|
  {
    var r0, r1 := Position(layout, 0), Position(layout, 1);
    if r0 < |layout| && r1 < |layout| then Some((decoded[r0], decoded[r1])) else None
  }

  function Position(layout: seq<RegisterEntry>, id: nat): nat {
    if layout == [] || layout[0].id == id then 0 else 1 + Position(layout[1..], id)
  }

  /** Encode, run once and decode; `None` is any of the three failing. */
  function AdderCaseResult(gates: seq<Gtv1.Gate>, layout: seq<RegisterEntry>, x: nat, y: nat, numBytes: nat)
    : Option<(nat, nat)>
  {
    match EncodedBits(x, y, layout, numBytes)
    case Err(_) => None
    case Ok(bits) =>
      match RunGates(gates, bits)
      case Err(_) => None
      case Ok(after) =>
        match DecodeBits(after, layout, |layout|)
        case None => None
        case Some(decoded) => AdderValues(layout, decoded)
  }

  method RunAdderCase(circuit: Transpiler.KmxCircuit, x: nat, y: nat, numBytes: Option<nat>)
    returns (r: Option<(nat, nat)>)
    ensures r == AdderCaseResult(circuit.gates, circuit.registers, x, y,
                                 if numBytes.Some? then numBytes.value else MinStateBytes(circuit.numQubits))
  {
    hide Unpack, RunGates, EncodeBits, DecodeBits, AdderValues;
    var width := if numBytes.Some? then numBytes.value else MinStateBytes(circuit.numQubits);
    var state := EncodeRegisters(StateValues(x, y), circuit.registers, width);
    if state.Err? {
      return None;
    }
    var outState := Run(circuit.gates, state.value);
    if outState.Err? {
      return None;
    }
    var decoded := DecodeRegisters(outState.value, circuit.registers);
    if decoded.None? {
      return None;
    }
    return AdderValues(circuit.registers, decoded.value);
  }

  lemma {:induction false} TimesOnce(gates: seq<Gtv1.Gate>, bits: seq<bool>)
    ensures Times(gates, bits, 1) == RunGates(gates, bits)
  {
    assert Times(gates, bits, 0) == Ok(bits);
  }

  lemma {:induction false} AdderPositions(n: nat, acc: nat, y: nat)
    ensures |AdderLayout(n)| == 2 && AdderValues(AdderLayout(n), [acc, y]) == Some((acc, y))
  {
    var layout := AdderLayout(n);
    assert layout[0].id == 0 && layout[1].id == 1 && layout[1..][0] == layout[1];
    assert Position(layout[1..], 1) == 0 && Position(layout, 1) == 1;
  }

  lemma {:induction false} AdderCaseOnLayout(n: nat, x: nat, y: nat, numBytes: nat)
    requires n >= 3 && 2 * n <= 8 * numBytes && x < Pow2(n) && y < Pow2(n)
    ensures AdderCaseResult(EmitAll(Adder.AdderGates(n)), AdderLayout(n), x, y, numBytes)
         == Some(((x + 1 * y) % Pow2(n), y))
  {
    hide Adder.AdderGates, AdderLayout, EmitAll, Times, RunGates, EncodedBits, DecodeBits, BitsOf, Pow2, AdderValues;
    var acc := (x + 1 * y) % Pow2(n);
    FixtureLaw(n, 1, x, y, numBytes);
    TimesOnce(EmitAll(Adder.AdderGates(n)), EncodedBits(x, y, AdderLayout(n), numBytes).value);
    AdderPositions(n, acc, y);
    DecodedResult(n, acc, y, numBytes);
  }

  /** One adder case through the transpiled file, in its smallest state, is addition modulo `2^n`. */
  lemma {:induction false} AdderCaseAdds(n: nat, x: nat, y: nat)
    requires 3 <= n && 2 * n <= 0x1_0000 && x < Pow2(n) && y < Pow2(n)
    ensures var circuit := Transpiler.Transpile(AdderStatement.AdderFile(n, 1));
      && circuit.Ok?
      && AdderCaseResult(circuit.value.gates, circuit.value.registers, x, y, MinStateBytes(circuit.value.numQubits))
         == Some(((x + y) % Pow2(n), y))
  {
    hide Transpiler.Transpile, AdderStatement.AdderFile, AdderCaseResult, Adder.AdderGates, AdderLayout,
      EmitAll, Pow2, MinStateBytes;
    AdderTranspiles(n);
    MinStateIsLeast(2 * n, MinStateBytes(2 * n));
    AdderCaseOnLayout(n, x, y, MinStateBytes(2 * n));
  }

  // ---------------------------------------------------------------- generated adder cases

  datatype AdderCase = AdderCase(x: nat, y: nat, sumOut: nat, width: nat)

  function CaseFrom(pair: (nat, nat), width: nat): AdderCase {
    AdderCase(pair.0, pair.1, (pair.0 + pair.1) % Pow2(width), width)
  }

  /** Case `k` of the stream of `seed`. */
  function CaseOf(seed: seq<Byte>, width: nat, k: nat): AdderCase {
    CaseFrom(FiatShamir.CasePair(seed, width, k), width)
  }

  method DrawCase(xof: XOF, width: nat, ghost k: nat) returns (c: AdderCase)
    requires xof.Valid() && xof.offset == FiatShamir.OperandStart(width, 2 * k)
    modifies xof
    ensures xof.Valid() && xof.offset == FiatShamir.OperandStart(width, 2 * (k + 1))
    ensures c == CaseOf(xof.seed, width, k)
  {
    hide FiatShamir.CasePair, FiatShamir.OperandStart, CaseFrom;
    var pair := FiatShamir.ReadPair(xof, width, k);
    c := CaseFrom(pair, width);
  }

  method IaddTestCases(width: int, count: int, seed: seq<Byte>) returns (r: Result<seq<AdderCase>, ValueError>)
    ensures r.Ok? <==> width > 0 && count > 0
    ensures r.Ok? ==> |r.value| == count && forall k | 0 <= k < count :: r.value[k] == CaseOf(seed, width, k)
    ensures r.Ok? ==> FiatShamir.AllDrawn(seed, width, Operands(r.value))
    ensures r.Ok? ==> forall k | 0 <= k < count ::
      r.value[k].sumOut == (r.value[k].x + r.value[k].y) % Pow2(width) && r.value[k].width == width
  {
    hide *;
    if width <= 0 {
      return Err(ValueError);
    }
    if count <= 0 {
      return Err(ValueError);
    }
    var xof := new XOF(seed);
    FirstOperand(width);
    var cases := [];
    for k := 0 to count
      invariant xof.Valid() && xof.offset == FiatShamir.OperandStart(width, 2 * k)
      invariant |cases| == k && forall i | 0 <= i < k :: cases[i] == CaseOf(seed, width, i)
    {
      var c := DrawCase(xof, width, k);
      cases := cases + [c];
    }
    StreamCases(seed, width, cases);
    return Ok(cases);
  }

  /** The operands of the cases, in order. */
  function Operands(cases: seq<AdderCase>): (s: seq<(nat, nat)>)
    ensures |s| == |cases|
  {
    seq(|cases|, k requires 0 <= k < |cases| => (cases[k].x, cases[k].y))
  }

  lemma {:induction false} StreamCases(seed: seq<Byte>, width: nat, cases: seq<AdderCase>)
    requires forall k | 0 <= k < |cases| :: cases[k] == CaseOf(seed, width, k)
    ensures FiatShamir.AllDrawn(seed, width, Operands(cases))
    ensures forall k | 0 <= k < |cases| ::
      cases[k].sumOut == (cases[k].x + cases[k].y) % Pow2(width) && cases[k].width == width
  {
    hide FiatShamir.CasePair, FiatShamir.AllDrawn, Pow2;
    FiatShamir.CasesAreDrawn(seed, width, |cases|);
    assert Operands(cases) == FiatShamir.Cases(seed, width, |cases|);
  }

  lemma {:induction false} FirstOperand(width: nat)
    ensures FiatShamir.OperandStart(width, 0) == 0
  {
  }

  /** The transpiled adder passes every generated case, at every width its wires can hold. */
  lemma {:induction false} GeneratedCasesPass(n: nat, seed: seq<Byte>, k: nat)
    requires 3 <= n && 2 * n <= 0x1_0000
    ensures var circuit, c := Transpiler.Transpile(AdderStatement.AdderFile(n, 1)), CaseOf(seed, n, k);
      && circuit.Ok?
      && AdderCaseResult(circuit.value.gates, circuit.value.registers, c.x, c.y, MinStateBytes(circuit.value.numQubits))
         == Some((c.sumOut, c.y))
  {
    hide Transpiler.Transpile, AdderStatement.AdderFile, AdderCaseResult, FiatShamir.CasePair, Pow2, MinStateBytes;
    AdderCaseAdds(n, CaseOf(seed, n, k).x, CaseOf(seed, n, k).y);
  }

  // ---------------------------------------------------------------- the bytes of a fixture

  lemma {:induction false} OctetsOfPrefix(bytes: seq<bv8>, m: nat)
    requires m <= |bytes|
    ensures Octets(bytes)[..m] == Octets(bytes[..m]) && Octets(bytes)[m..] == Octets(bytes[m..])
  {
  }

  /** The first `m` bytes of a state are worth what its first `8m` bits are. */
  lemma {:induction false} PrefixValue(bytes: seq<bv8>, m: nat)
    requires m <= |bytes|
    ensures LeValue(Octets(bytes)[..m]) == BitsValue(Unpack(bytes)[..8 * m])
    ensures Unpack(bytes[m..]) == Unpack(bytes)[8 * m..]
  {
    hide Unpack, LeValue, BitsValue, Octets;
    OctetsOfPrefix(bytes, m);
    PackedValue(bytes[..m]);
    UnpackConcat(bytes[..m], bytes[m..]);
    assert bytes == bytes[..m] + bytes[m..];
  }

  /**
   An encoded pair at a whole-byte width: the accumulator in the first bytes and
   the offset in the next, both little-endian.
   */
  lemma {:induction false} AdderBytes(m: nat, acc: nat, offset: nat, bytes: seq<bv8>)
    requires 2 * m <= |bytes| && acc < Pow2(8 * m) && offset < Pow2(8 * m)
    requires Ok(Unpack(bytes)) == EncodedBits(acc, offset, AdderLayout(8 * m), |bytes|)
    ensures LeValue(Octets(bytes)[..m]) == acc
    ensures LeValue(Octets(bytes)[m..2 * m]) == offset
  {
    hide EncodedBits, AdderLayout, Unpack, LeValue, Octets, BitsOf, BitsValue, Pow2;
    AdderEncodes(8 * m, acc, offset, |bytes|);
    var bits := Unpack(bytes);
    assert bits[..8 * m] == BitsOf(acc, 8 * m);
    assert bits[8 * m..][..8 * m] == BitsOf(offset, 8 * m);
    PrefixValue(bytes, m);
    PrefixValue(bytes[m..], m);
    OctetsOfPrefix(bytes, m);
    assert Octets(bytes)[m..][..m] == Octets(bytes)[m..2 * m];
    FitsBits(acc, 8 * m);
    FitsBits(offset, 8 * m);
  }

  lemma {:induction false} FitsBits(v: nat, n: nat)
    requires v < Pow2(n)
    ensures BitsValue(BitsOf(v, n)) == v
  {
    BitsValueOfBits(v, n);
    DivModUnique(v, Pow2(n), 0, v);
  }

  /** At width 256 the first 32 bytes of a state, as the native AIR reads them, are the accumulator. */
  lemma {:induction false} LowRegisterIsAccumulator(acc: nat, offset: nat, bytes: seq<bv8>)
    requires 64 <= |bytes| && acc < Pow2(256) && offset < Pow2(256)
    requires Ok(Unpack(bytes)) == EncodedBits(acc, offset, AdderLayout(256), |bytes|)
    ensures AirRelations.LowRegister(Octets(bytes)) == Ok(acc)
  {
    hide EncodedBits, AdderLayout, Unpack, LeValue, Pow2;
    AdderBytes(32, acc, offset, bytes);
  }

  /** Every case that the fixture builder stores at width 256 passes the native AIR's check of the outputs. */
  lemma {:induction false} FixtureFitsAir(c: TestCase, x: nat, y: nat, repetitions: nat, numBytes: nat)
    requires 64 <= numBytes && x < Pow2(256) && y < Pow2(256) && |c.y| == numBytes
    requires IsCase(c, x, y, repetitions, Pow2(256), AdderLayout(256), numBytes)
    ensures AirSoundness.OutputCorrect(AirRelations.TestCase(x, y, Octets(c.y)), repetitions)
  {
    hide EncodedBits, AdderLayout, Unpack, LeValue, Pow2;
    LowRegisterIsAccumulator((x + repetitions * y) % Pow2(256), y, c.y);
  }

  // ---------------------------------------------------------------- what cross-validation reports

  /** As many cases are replayed as fit 25 million gate steps, but at least one if there is one. */
  lemma {:induction false} ReplayCountIsLargest(cases: nat, steps: nat)
    requires steps > 0
    ensures var n := ReplayCount(cases, steps);
      && n <= cases && (cases > 0 ==> n > 0)
      && (n > 1 ==> n * steps <= 25_000_000)
      && (n < cases ==> (n + 1) * steps > 25_000_000)
  {
    var q := 25_000_000 / steps;
    assert q * steps <= 25_000_000 < (q + 1) * steps;
    var n := ReplayCount(cases, steps);
    if n > 1 {
      ProductOrder(n, q, steps);
    }
    if n < cases {
      ProductOrder(q + 1, n + 1, steps);
    }
  }

  lemma {:induction false} ProductOrder(a: nat, b: nat, c: nat)
    requires a <= b
    ensures a * c <= b * c
  {
    assert b * c == a * c + (b - a) * c;
    assert (b - a) * c >= 0;
  }

  predicate Replays(gates: seq<Gtv1.Gate>, c: TestCase, repetitions: nat) {
    Times(gates, Unpack(c.x), repetitions) == Ok(Unpack(c.y))
  }

  /** A mismatch is reported by the index of the first case that does not replay, and success covers every case tried. */
  lemma {:induction false} FirstMismatch(gates: seq<Gtv1.Gate>, cases: seq<TestCase>, repetitions: nat, i: nat, n: nat)
    requires i <= n <= |cases|
    ensures var v := ValidateFrom(gates, cases, repetitions, i, n);
      && (v.Validated? <==> forall j | i <= j < n :: Replays(gates, cases[j], repetitions))
      && (v.Validated? ==> v.replayed == n)
      && (v.CrossValidationFail? ==>
           && i <= v.index < n && !Replays(gates, cases[v.index], repetitions)
           && forall j | i <= j < v.index :: Replays(gates, cases[j], repetitions))
      && !v.ZeroDivision?
    decreases n - i
  {
    hide Times, Unpack;
    if i < n {
      FirstMismatch(gates, cases, repetitions, i + 1, n);
      assert Replays(gates, cases[i], repetitions) <==> Times(gates, Unpack(cases[i].x), repetitions) == Ok(Unpack(cases[i].y));
    }
  }
}
