/** The kickmix to GTV1 transpiler for the classical subset, on tokenised lines. */
module Transpiler {
  import opened Wrappers
  import opened Binary
  import opened Kickmix
  import opened Circuits
  import Classical
  import Gtv1
  import Reference

  datatype KmxCircuit = KmxCircuit(gates: seq<Gtv1.Gate>, registers: seq<RegisterEntry>, numQubits: nat)

  /** FIXTURE.KMX_PARSE_ERROR and FIXTURE.UNSUPPORTED_INSTRUCTION, with the line. */
  datatype FixtureError = KmxParseError(line: nat) | UnsupportedInstruction(line: nat)

  const U16_MAX: nat := 0xFFFF

  datatype MetadataResult = Table(regs: seq<RegisterEntry>) | BadSyntax | BitMember

  /** `_apply_metadata`: the register table in register order, or why the line is rejected. */
  function ApplyMetadata(line: Instruction, regs: seq<RegisterEntry>): MetadataResult {
    var t := line.targets;
    if line.opcode.REGISTER? then
      if |t| != 1 || !t[0].Register? then BadSyntax else Table(Extend(regs, t[0].r, []))
    else if |t| != 2 || !t[1].Register? then BadSyntax
    else if !t[0].Qubit? then BitMember
    else if t[0].q > U16_MAX then BadSyntax
    else Table(Extend(regs, t[1].r, [t[0].q]))
  }

  function ClassicalArity(op: Opcode): nat {
    if op.X? then 1 else if op.CX? then 2 else 3
  }

  /** `_to_gate` up to the GTV1 row: the classical gate, or `None` for a malformed line. */
  function ToGate(line: Instruction): Option<Classical.Gate> {
    var t := line.targets;
    if |t| != ClassicalArity(line.opcode) || exists k | 0 <= k < |t| :: !t[k].Qubit? || t[k].q > U16_MAX then None
    else if line.opcode.X? then Some(Classical.Not(t[0].q))
    else if line.opcode.CX? then Some(Classical.Cnot(t[0].q, t[1].q))
    else Some(Classical.Toffoli(t[0].q, t[1].q, t[2].q))
  }

  predicate IsClassical(op: Opcode) {
    op.X? || op.CX? || op.CCX?
  }

  predicate IsRegisterLine(op: Opcode) {
    op.REGISTER? || op.APPEND_TO_REGISTER?
  }

  /** One line of `parse_kmx`; `n` is the number of the line. */
  function AddKmxLine(c: KmxCircuit, line: Instruction, n: nat): Result<KmxCircuit, FixtureError> {
    if line.condition.Some? then Err(UnsupportedInstruction(n))
    else if IsRegisterLine(line.opcode) then
      match ApplyMetadata(line, c.registers)
      case BadSyntax => Err(KmxParseError(n))
      case BitMember => Err(UnsupportedInstruction(n))
      case Table(regs) => Ok(c.(registers := regs, numQubits := Max(c.numQubits, QubitBound(line.targets))))
    else if IsClassical(line.opcode) then
      match ToGate(line)
      case None => Err(KmxParseError(n))
      case Some(g) => Ok(c.(
        gates := c.gates + [Reference.Emit(g)],
        numQubits := Max(c.numQubits, QubitBound(line.targets))))
    else Err(UnsupportedInstruction(n))
  }

  function TranspilePrefix(lines: seq<Instruction>, k: nat): Result<KmxCircuit, FixtureError>
    requires k <= |lines|
  {
    if k == 0 then Ok(KmxCircuit([], [], 0))
    else match TranspilePrefix(lines, k - 1)
      case Err(e) => Err(e)
      case Ok(c) => AddKmxLine(c, lines[k - 1], k)
  }

  function Transpile(lines: seq<Instruction>): Result<KmxCircuit, FixtureError> {
    TranspilePrefix(lines, |lines|)
  }

  method ParseKmx(lines: seq<Instruction>) returns (r: Result<KmxCircuit, FixtureError>)
    ensures r == Transpile(lines)
  {
    hide AddKmxLine;
    var c := KmxCircuit([], [], 0);
    for k := 0 to |lines|
      invariant TranspilePrefix(lines, k) == Ok(c)
    {
      var next := AddKmxLine(c, lines[k], k + 1);
      if next.Err? {
        TranspileStuck(lines, k + 1, |lines|);
        return next;
      }
      c := next.value;
    }
    return Ok(c);
  }

  lemma {:induction false} TranspileStuck(lines: seq<Instruction>, k: nat, n: nat)
    requires k <= n <= |lines| && TranspilePrefix(lines, k).Err?
    ensures TranspilePrefix(lines, n) == TranspilePrefix(lines, k)
  {
    if k < n {
      TranspileStuck(lines, k, n - 1);
    }
  }

  // ---------------------------------------------------------------- which files are accepted

  /** A line of the classical subset with well-formed operands on 16-bit wires. */
  predicate Accepted(line: Instruction) {
    && line.condition.None?
    && (IsClassical(line.opcode) || IsRegisterLine(line.opcode))
    && (IsClassical(line.opcode) ==> ToGate(line).Some?)
    && (IsRegisterLine(line.opcode) ==> ApplyMetadata(line, []).Table?)
  }

  /** The transpiler accepts exactly the files all of whose lines are accepted. */
  lemma {:induction false} TranspileAccepts(lines: seq<Instruction>, k: nat)
    requires k <= |lines|
    ensures TranspilePrefix(lines, k).Ok? <==> forall i | 0 <= i < k :: Accepted(lines[i])
  {
    if k > 0 {
      TranspileAccepts(lines, k - 1);
      hide ToGate, Extend;
    }
  }

  // ---------------------------------------------------------------- the gates behind the lines

  /** The classical gates of the first `k` lines, register lines dropped. */
  function GatesBehind(lines: seq<Instruction>, k: nat): seq<Classical.Gate>
    requires k <= |lines| && forall i | 0 <= i < k :: Accepted(lines[i])
  {
    if k == 0 then []
    else if IsClassical(lines[k - 1].opcode) then
      assert Accepted(lines[k - 1]);
      GatesBehind(lines, k - 1) + [ToGate(lines[k - 1]).value]
    else GatesBehind(lines, k - 1)
  }

  /** An accepted gate line is the kickmix spelling of its gate. */
  lemma {:induction false} LineIsGate(line: Instruction)
    requires Accepted(line) && IsClassical(line.opcode)
    ensures line == Classical.Encode(ToGate(line).value)
    ensures Classical.Fits(ToGate(line).value, QubitBound(line.targets))
    ensures Classical.Fits(ToGate(line).value, 0x1_0000)
  {
    var t := line.targets;
    TargetsBounded(t);
    forall k | 0 <= k < |t| ensures t[k].Qubit? && t[k].q < QubitBound(t) && t[k].q <= U16_MAX {
      assert TargetInBounds(t[k], QubitBound(t), BitBound(t));
    }
    if line.opcode.X? {
      assert t == [t[0]];
    } else if line.opcode.CX? {
      assert t == [t[0], t[1]];
    } else {
      assert t == [t[0], t[1], t[2]];
    }
  }

  lemma {:induction false} EmitSnoc(gs: seq<Classical.Gate>, g: Classical.Gate)
    ensures Reference.EmitAll(gs + [g]) == Reference.EmitAll(gs) + [Reference.Emit(g)]
    decreases |gs|
  {
    if gs == [] {
      assert gs + [g] == [g] && [g][1..] == [];
    } else {
      assert (gs + [g])[1..] == gs[1..] + [g];
      EmitSnoc(gs[1..], g);
    }
  }

  lemma {:induction false} FitsMonotone(gs: seq<Classical.Gate>, a: nat, b: nat)
    requires a <= b && Classical.AllFit(gs, a)
    ensures Classical.AllFit(gs, b)
  {
  }

  /** The transpiled circuit is the emitted gate list, over the qubits and registers that kickmix itself parses. */
  lemma {:induction false} TranspileMatchesParse(lines: seq<Instruction>, k: nat)
    requires k <= |lines| && forall i | 0 <= i < k :: Accepted(lines[i])
    ensures var gs, r, p := GatesBehind(lines, k), TranspilePrefix(lines, k), ParsePrefix(lines, k);
      && r.Ok? && p.Ok?
      && r.value.gates == Reference.EmitAll(gs)
      && r.value.registers == p.value.registers
      && r.value.numQubits == p.value.numQubits
      && Classical.AllFit(gs, p.value.numQubits)
  {
    if k > 0 {
      TranspileMatchesParse(lines, k - 1);
      var line, p := lines[k - 1], ParsePrefix(lines, k - 1).value;
      assert Accepted(line);
      var n := Max(p.numQubits, QubitBound(line.targets));
      FitsMonotone(GatesBehind(lines, k - 1), p.numQubits, n);
      if IsClassical(line.opcode) {
        LineIsGate(line);
        EmitSnoc(GatesBehind(lines, k - 1), ToGate(line).value);
        FitsMonotone([ToGate(line).value], QubitBound(line.targets), n);
        hide ToGate, Extend, QubitBound, BitBound;
      } else {
        hide ToGate, Extend, QubitBound, BitBound;
      }
    }
  }

  // ---------------------------------------------------------------- the two simulations

  /** One accepted line: its gate applied, or nothing for a register line. */
  lemma {:induction false} LineRuns(line: Instruction, m: Machine, trajectory: Trajectory)
    requires Accepted(line) && AllTrue(m.stack)
    requires IsClassical(line.opcode) ==> Classical.Fits(ToGate(line).value, |m.qubits|)
    ensures Run([line], m, trajectory)
         == Some(if IsClassical(line.opcode) then m.(qubits := Classical.Apply(ToGate(line).value, m.qubits)) else m)
  {
    RunOne(line, m, trajectory);
    if IsClassical(line.opcode) {
      LineIsGate(line);
      Classical.StepIsApply(ToGate(line).value, m, trajectory);
      hide Step, Run;
    }
  }

  /** Running the accepted lines in the kickmix simulator applies the gates behind them. */
  lemma {:induction false} LinesRunGates(lines: seq<Instruction>, k: nat, m: Machine, trajectory: Trajectory)
    requires k <= |lines| && forall i | 0 <= i < k :: Accepted(lines[i])
    requires Classical.AllFit(GatesBehind(lines, k), |m.qubits|) && AllTrue(m.stack)
    ensures Run(lines[..k], m, trajectory)
         == Some(m.(qubits := Classical.ApplyAll(GatesBehind(lines, k), m.qubits)))
  {
    hide Step, ToGate;
    if k > 0 {
      var before, line := GatesBehind(lines, k - 1), lines[k - 1];
      assert before <= GatesBehind(lines, k);
      LinesRunGates(lines, k - 1, m, trajectory);
      assert lines[..k] == lines[..k - 1] + [line];
      var m1 := m.(qubits := Classical.ApplyAll(before, m.qubits));
      if IsClassical(line.opcode) {
        var g := ToGate(line).value;
        assert GatesBehind(lines, k) == before + [g];
        assert g in GatesBehind(lines, k);
        Classical.ApplyConcat(before, [g], m.qubits);
        Classical.ApplyOne(g, m1.qubits);
      }
      hide Run, Classical.ApplyAll;
      RunConcat(lines[..k - 1], [line], m, trajectory);
      LineRuns(line, m1, trajectory);
    }
  }

  /** Qubits beyond those a gate list names are left alone. */
  lemma {:induction false} ApplyAllFrame(gs: seq<Classical.Gate>, q: seq<bool>, extra: seq<bool>)
    requires Classical.AllFit(gs, |q|)
    ensures Classical.AllFit(gs, |q + extra|)
    ensures Classical.ApplyAll(gs, q + extra) == Classical.ApplyAll(gs, q) + extra
    decreases |gs|
  {
    FitsMonotone(gs, |q|, |q + extra|);
    if gs != [] {
      var g := gs[0];
      assert Classical.Apply(g, q + extra) == Classical.Apply(g, q) + extra;
      ApplyAllFrame(gs[1..], Classical.Apply(g, q), extra);
    }
  }

  /**
   For every accepted kickmix file and every bit vector at least as wide as its
   qubits: the kickmix simulator runs it to the end changing qubits only, and the
   emitted gates give the same qubits bit for bit, leave the padding bits alone
   and never index outside the vector.
   */
  lemma {:induction false} TranspilePreservesMeaning(
    lines: seq<Instruction>, m: Machine, padding: seq<bool>, trajectory: Trajectory)
    requires Transpile(lines).Ok? && AllTrue(m.stack)
    requires |m.qubits| == Transpile(lines).value.numQubits
    ensures Parse(lines).Ok? && Parse(lines).value.numQubits == Transpile(lines).value.numQubits
    ensures var end := Run(lines, m, trajectory);
      && end.Some? && end.value == m.(qubits := end.value.qubits)
      && Reference.RunGates(Transpile(lines).value.gates, m.qubits + padding) == Ok(end.value.qubits + padding)
  {
    TranspileAccepts(lines, |lines|);
    TranspileMatchesParse(lines, |lines|);
    LinesRunGates(lines, |lines|, m, trajectory);
    assert lines[..|lines|] == lines;
    var gs := GatesBehind(lines, |lines|);
    ApplyAllFrame(gs, m.qubits, padding);
    hide *;
    Reference.RunEmitted(gs, m.qubits + padding);
  }

  // ---------------------------------------------------------------- which line is rejected

  /** The rejection names the first line that is not accepted, counted from 1, and its kind tells conditions,
      other instructions and bit members from malformed lines. */
  lemma {:induction false} FirstRejectedLine(lines: seq<Instruction>, k: nat)
    requires k <= |lines| && TranspilePrefix(lines, k).Err?
    ensures var e := TranspilePrefix(lines, k).error;
      && 1 <= e.line <= k && !Accepted(lines[e.line - 1])
      && (forall i | 0 <= i < e.line - 1 :: Accepted(lines[i]))
      && (e.UnsupportedInstruction? <==> Unsupported(lines[e.line - 1]))
  {
    hide ToGate, Extend;
    if TranspilePrefix(lines, k - 1).Err? {
      FirstRejectedLine(lines, k - 1);
    } else {
      TranspileAccepts(lines, k - 1);
      TranspileAccepts(lines, k);
    }
  }

  /** Outside the classical subset: conditional, another instruction, or a register with a classical bit. */
  predicate Unsupported(line: Instruction) {
    || line.condition.Some?
    || (!IsClassical(line.opcode) && !IsRegisterLine(line.opcode))
    || (line.opcode.APPEND_TO_REGISTER? && |line.targets| == 2 && line.targets[1].Register? && !line.targets[0].Qubit?)
  }
}
