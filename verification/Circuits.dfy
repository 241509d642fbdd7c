/** Parsed circuits: the register table and the bounds that parsing establishes. */
module Circuits {
  import opened Wrappers
  import opened Binary
  import opened Kickmix

  /** One entry of the ordered register table: a register and its qubits, least significant first. */
  datatype RegisterEntry = RegisterEntry(id: nat, members: seq<nat>)

  datatype Circuit = Circuit(
    instructions: seq<Instruction>, registers: seq<RegisterEntry>, numQubits: nat, numBits: nat)

  /** The line whose register operands are malformed. */
  datatype ParseError = ParseError(line: nat)

  // ---------------------------------------------------------------- the register table

  /** The table is iterated in ascending register order. */
  predicate Ascending(regs: seq<RegisterEntry>) {
    forall i, j | 0 <= i < j < |regs| :: regs[i].id < regs[j].id
  }

  /** Create register `id` if it is new, then append `extra` to its members. */
  function Extend(regs: seq<RegisterEntry>, id: nat, extra: seq<nat>): seq<RegisterEntry> {
    if regs == [] || id < regs[0].id then [RegisterEntry(id, extra)] + regs
    else if regs[0].id == id then [RegisterEntry(id, regs[0].members + extra)] + regs[1..]
    else [regs[0]] + Extend(regs[1..], id, extra)
  }

  function Members(regs: seq<RegisterEntry>, id: nat): seq<nat> {
    if regs == [] then [] else if regs[0].id == id then regs[0].members else Members(regs[1..], id)
  }

  lemma {:induction false} ExtendAscends(regs: seq<RegisterEntry>, id: nat, extra: seq<nat>, low: nat)
    requires Ascending(regs) && low <= id && forall k | 0 <= k < |regs| :: low <= regs[k].id
    ensures Ascending(Extend(regs, id, extra))
    ensures forall k | 0 <= k < |Extend(regs, id, extra)| :: low <= Extend(regs, id, extra)[k].id
  {
    if regs != [] && regs[0].id < id {
      var rest := regs[1..];
      forall k | 0 <= k < |rest| ensures regs[0].id + 1 <= rest[k].id {
        assert rest[k] == regs[k + 1];
      }
      ExtendAscends(rest, id, extra, regs[0].id + 1);
    }
  }

  /** Extending appends to that register and leaves the others alone. */
  lemma {:induction false} ExtendMembers(regs: seq<RegisterEntry>, id: nat, extra: seq<nat>, r: nat)
    requires Ascending(regs)
    ensures Members(Extend(regs, id, extra), r) == Members(regs, r) + (if r == id then extra else [])
  {
    if regs == [] {
    } else if id < regs[0].id {
      assert ([RegisterEntry(id, extra)] + regs)[1..] == regs;
      if r == id {
        MembersAbove(regs, id);
      }
    } else if regs[0].id < id {
      ExtendMembers(regs[1..], id, extra, r);
    }
  }

  lemma {:induction false} MembersAbove(regs: seq<RegisterEntry>, id: nat)
    requires Ascending(regs) && (regs != [] ==> id < regs[0].id)
    ensures Members(regs, id) == []
  {
    if regs != [] {
      MembersAbove(regs[1..], id);
    }
  }

  // ---------------------------------------------------------------- parsing tokenised lines

  function QubitBound(targets: seq<Target>): nat {
    if targets == [] then 0
    else Max(if targets[0].Qubit? then targets[0].q + 1 else 0, QubitBound(targets[1..]))
  }

  function BitBound(targets: seq<Target>): nat {
    if targets == [] then 0
    else Max(if targets[0].ClassicalBit? then targets[0].b + 1 else 0, BitBound(targets[1..]))
  }

  /** The register table after one line, or `None` when its operands are malformed. */
  function UpdateRegisters(regs: seq<RegisterEntry>, line: Instruction): Option<seq<RegisterEntry>> {
    var t := line.targets;
    if line.opcode.REGISTER? then
      if |t| == 1 && t[0].Register? then Some(Extend(regs, t[0].r, [])) else None
    else if line.opcode.APPEND_TO_REGISTER? then
      if |t| == 2 && t[0].Qubit? && t[1].Register? then Some(Extend(regs, t[1].r, [t[0].q]))
      else if |t| == 2 && t[0].ClassicalBit? && t[1].Register? then Some(Extend(regs, t[1].r, []))
      else None
    else Some(regs)
  }

  function AddLine(c: Circuit, line: Instruction): Option<Circuit> {
    var regs := UpdateRegisters(c.registers, line);
    if regs.None? then None
    else Some(Circuit(
      c.instructions + [line], regs.value,
      Max(c.numQubits, QubitBound(line.targets)),
      Max(Max(c.numBits, BitBound(line.targets)), if line.condition.Some? then line.condition.value + 1 else 0)))
  }

  const EMPTY: Circuit := Circuit([], [], 0, 0)

  /** The circuit of the first `k` lines, or the first malformed one. */
  function ParsePrefix(lines: seq<Instruction>, k: nat): Result<Circuit, ParseError>
    requires k <= |lines|
  {
    if k == 0 then Ok(EMPTY)
    else match ParsePrefix(lines, k - 1)
      case Err(e) => Err(e)
      case Ok(c) =>
        match AddLine(c, lines[k - 1])
        case None => Err(ParseError(k))
        case Some(c') => Ok(c')
  }

  function Parse(lines: seq<Instruction>): Result<Circuit, ParseError> {
    ParsePrefix(lines, |lines|)
  }

  method ParseLines(lines: seq<Instruction>) returns (r: Result<Circuit, ParseError>)
    ensures r == Parse(lines)
  {
    var circuit := EMPTY;
    for k := 0 to |lines|
      invariant ParsePrefix(lines, k) == Ok(circuit)
    {
      var next := AddLine(circuit, lines[k]);
      if next.None? {
        StuckAt(lines, k + 1, |lines|);
        return Err(ParseError(k + 1));
      }
      circuit := next.value;
    }
    return Ok(circuit);
  }

  lemma {:induction false} StuckAt(lines: seq<Instruction>, k: nat, n: nat)
    requires k <= n <= |lines| && ParsePrefix(lines, k).Err?
    ensures ParsePrefix(lines, n) == ParsePrefix(lines, k)
  {
    if k < n {
      StuckAt(lines, k, n - 1);
    }
  }

  // ---------------------------------------------------------------- what parsing guarantees

  predicate TargetInBounds(t: Target, numQubits: nat, numBits: nat) {
    (t.Qubit? ==> t.q < numQubits) && (t.ClassicalBit? ==> t.b < numBits)
  }

  predicate InBounds(i: Instruction, numQubits: nat, numBits: nat) {
    && (forall k | 0 <= k < |i.targets| :: TargetInBounds(i.targets[k], numQubits, numBits))
    && (i.condition.Some? ==> i.condition.value < numBits)
  }

  predicate MembersInBounds(e: RegisterEntry, numQubits: nat) {
    forall k | 0 <= k < |e.members| :: e.members[k] < numQubits
  }

  predicate WellFormed(c: Circuit) {
    && Ascending(c.registers)
    && (forall k | 0 <= k < |c.registers| :: MembersInBounds(c.registers[k], c.numQubits))
    && (forall k | 0 <= k < |c.instructions| :: InBounds(c.instructions[k], c.numQubits, c.numBits))
  }

  lemma {:induction false} TargetsBounded(targets: seq<Target>)
    ensures forall k | 0 <= k < |targets| :: TargetInBounds(targets[k], QubitBound(targets), BitBound(targets))
  {
    if targets != [] {
      TargetsBounded(targets[1..]);
      forall k | 1 <= k < |targets| ensures TargetInBounds(targets[k], QubitBound(targets), BitBound(targets)) {
        assert targets[1..][k - 1] == targets[k];
      }
    }
  }

  lemma {:induction false} ExtendInBounds(regs: seq<RegisterEntry>, id: nat, extra: seq<nat>, n: nat)
    requires forall k | 0 <= k < |regs| :: MembersInBounds(regs[k], n)
    requires forall k | 0 <= k < |extra| :: extra[k] < n
    ensures forall k | 0 <= k < |Extend(regs, id, extra)| :: MembersInBounds(Extend(regs, id, extra)[k], n)
  {
    if regs != [] {
      assert MembersInBounds(regs[0], n);
      if regs[0].id < id {
        ExtendInBounds(regs[1..], id, extra, n);
      }
    }
  }

  lemma {:induction false} AddLineWellFormed(c: Circuit, line: Instruction)
    requires WellFormed(c)
    ensures AddLine(c, line).Some? ==> WellFormed(AddLine(c, line).value)
  {
    var r := AddLine(c, line);
    if r.Some? {
      var t, n := line.targets, r.value.numQubits;
      TargetsBounded(t);
      forall k | 0 <= k < |c.registers| ensures MembersInBounds(c.registers[k], n) {
      }
      if line.opcode.REGISTER? {
        ExtendAscends(c.registers, t[0].r, [], 0);
        ExtendInBounds(c.registers, t[0].r, [], n);
      } else if line.opcode.APPEND_TO_REGISTER? {
        var extra := if t[0].Qubit? then [t[0].q] else [];
        assert TargetInBounds(t[0], QubitBound(t), BitBound(t));
        ExtendAscends(c.registers, t[1].r, extra, 0);
        ExtendInBounds(c.registers, t[1].r, extra, n);
      }
      forall k | 0 <= k < |r.value.instructions| ensures InBounds(r.value.instructions[k], n, r.value.numBits) {
        if k < |c.instructions| {
          assert InBounds(c.instructions[k], c.numQubits, c.numBits);
        }
      }
    }
  }

  /** A parsed circuit keeps its lines, and covers every qubit and bit they name. */
  lemma {:induction false} ParsePrefixWellFormed(lines: seq<Instruction>, k: nat)
    requires k <= |lines|
    ensures var r := ParsePrefix(lines, k);
      r.Ok? ==> WellFormed(r.value) && r.value.instructions == lines[..k]
  {
    if k > 0 && ParsePrefix(lines, k - 1).Ok? {
      ParsePrefixWellFormed(lines, k - 1);
      AddLineWellFormed(ParsePrefix(lines, k - 1).value, lines[k - 1]);
      assert lines[..k] == lines[..k - 1] + [lines[k - 1]];
    }
  }

  // ---------------------------------------------------------------- no run of a parsed circuit panics

  predicate QubitOperands(t: seq<Target>, n: nat) {
    n <= |t| && forall k | 0 <= k < n :: t[k].Qubit?
  }

  /** The operands have the number and kinds the simulator expects. */
  predicate WellTyped(i: Instruction) {
    && QubitOperands(i.targets, QubitArity(i.opcode))
    && (i.opcode.HMR? ==> |i.targets| > 1 && i.targets[1].ClassicalBit?)
    && (i.opcode.BIT_INVERT? || i.opcode.BIT_STORE0? || i.opcode.BIT_STORE1? ==> i.targets != [])
    && (i.opcode.PUSH_CONDITION? ==> i.condition.Some?)
    && !i.opcode.UNKNOWN?
  }

  function QubitIds(t: seq<Target>, n: nat): (ids: seq<nat>)
    requires QubitOperands(t, n)
    ensures |ids| == n && forall k | 0 <= k < n :: t[k] == Qubit(ids[k])
  {
    seq(n, k requires 0 <= k < n => t[k].q)
  }

  lemma {:induction false} OperandsInBounds(i: Instruction, n: nat, m: Machine)
    requires QubitOperands(i.targets, n) && InBounds(i, |m.qubits|, |m.bits|)
    ensures Operands(i.targets, n).Some?
    ensures var ids := Operands(i.targets, n).value;
      && (forall k | 0 <= k < n :: ids[k] < |m.qubits|)
      && Conjunction(m.qubits, ids).Some?
      && (n > 0 ==> Conjunction(m.qubits, ids[..n - 1]).Some?)
  {
    var ids := QubitIds(i.targets, n);
    OperandsAre(i.targets, ids);
    forall k | 0 <= k < n ensures ids[k] < |m.qubits| {
      assert TargetInBounds(i.targets[k], |m.qubits|, |m.bits|);
    }
    ConjunctionIs(m.qubits, ids);
    if n > 0 {
      ConjunctionIs(m.qubits, ids[..n - 1]);
    }
  }

  lemma {:induction false} ActNeverPanics(i: Instruction, m: Machine, trajectory: Trajectory)
    requires WellTyped(i) && InBounds(i, |m.qubits|, |m.bits|)
    requires !IsControl(i.opcode) && !IsMetadata(i.opcode)
    ensures Act(i, m, trajectory).Some?
  {
    hide Operands, Conjunction;
    OperandsInBounds(i, QubitArity(i.opcode), m);
    if i.opcode.HMR? {
      assert TargetInBounds(i.targets[1], |m.qubits|, |m.bits|);
    } else if i.targets != [] {
      assert TargetInBounds(i.targets[0], |m.qubits|, |m.bits|);
    }
  }

  /** A run over well-typed, in-bounds instructions reaches its end from every state and on every trajectory. */
  lemma {:induction false} RunNeverPanics(p: seq<Instruction>, m: Machine, trajectory: Trajectory)
    requires forall k | 0 <= k < |p| :: WellTyped(p[k]) && InBounds(p[k], |m.qubits|, |m.bits|)
    ensures Run(p, m, trajectory).Some?
    decreases |p|
  {
    hide Act, InBounds, WellTyped;
    if p != [] {
      assert WellTyped(p[0]) && InBounds(p[0], |m.qubits|, |m.bits|);
      if !IsControl(p[0].opcode) && !IsMetadata(p[0].opcode) {
        ActNeverPanics(p[0], m, trajectory);
      } else {
        PushHasCondition(p[0]);
      }
      StepKeepsShape(p[0], m, trajectory);
      RunNeverPanics(p[1..], Step(p[0], m, trajectory).value, trajectory);
    }
  }

  lemma {:induction false} PushHasCondition(i: Instruction)
    requires WellTyped(i)
    ensures i.opcode.PUSH_CONDITION? ==> i.condition.Some?
  {
  }

  // ---------------------------------------------------------------- what a parse determines

  /** A register line has the operands that its kind takes; other lines take any. */
  predicate Readable(line: Instruction) {
    var t := line.targets;
    && (line.opcode.REGISTER? ==> |t| == 1 && t[0].Register?)
    && (line.opcode.APPEND_TO_REGISTER? ==> |t| == 2 && !t[0].Register? && t[1].Register?)
  }

  /** Parsing succeeds exactly when every line is readable, and otherwise names the first that is not, counted from 1. */
  lemma {:induction false} ParseReports(lines: seq<Instruction>, k: nat)
    requires k <= |lines|
    ensures var r := ParsePrefix(lines, k);
      && (r.Ok? <==> forall i | 0 <= i < k :: Readable(lines[i]))
      && (r.Err? ==> 1 <= r.error.line <= k && !Readable(lines[r.error.line - 1])
                     && forall i | 0 <= i < r.error.line - 1 :: Readable(lines[i]))
  {
    hide Extend, QubitBound, BitBound;
    if k > 0 {
      ParseReports(lines, k - 1);
    }
  }

  /** The qubits that the first `k` lines append to register `id`, in order. */
  function Appended(lines: seq<Instruction>, id: nat, k: nat): seq<nat>
    requires k <= |lines|
  {
    if k == 0 then []
    else
      var t := lines[k - 1].targets;
      Appended(lines, id, k - 1)
        + (if lines[k - 1].opcode.APPEND_TO_REGISTER? && |t| == 2 && t[0].Qubit? && t[1] == Register(id)
           then [t[0].q] else [])
  }

  /** A register's members are the qubits appended to it, least significant first. */
  lemma {:induction false} ParsedMembers(lines: seq<Instruction>, id: nat, k: nat)
    requires k <= |lines| && ParsePrefix(lines, k).Ok?
    ensures Ascending(ParsePrefix(lines, k).value.registers)
    ensures Members(ParsePrefix(lines, k).value.registers, id) == Appended(lines, id, k)
  {
    hide QubitBound, BitBound, Extend, Members, Ascending;
    if k == 0 {
      NoRegisters(id);
    } else {
      ParsedMembers(lines, id, k - 1);
      var regs, t := ParsePrefix(lines, k - 1).value.registers, lines[k - 1].targets;
      if lines[k - 1].opcode.REGISTER? {
        ExtendMembers(regs, t[0].r, [], id);
        ExtendAscends(regs, t[0].r, [], 0);
      } else if lines[k - 1].opcode.APPEND_TO_REGISTER? {
        var extra := if t[0].Qubit? then [t[0].q] else [];
        ExtendMembers(regs, t[1].r, extra, id);
        ExtendAscends(regs, t[1].r, extra, 0);
      }
    }
  }

  lemma {:induction false} NoRegisters(id: nat)
    ensures Ascending([]) && Members([], id) == []
  {
  }

  /** The line names qubit `q`. */
  predicate Names(line: Instruction, q: nat) {
    Qubit(q) in line.targets
  }

  lemma {:induction false} BoundIsNamed(targets: seq<Target>)
    ensures QubitBound(targets) > 0 ==> Qubit(QubitBound(targets) - 1) in targets
  {
    if targets != [] {
      BoundIsNamed(targets[1..]);
    }
  }

  /** The qubit count is one past the largest qubit that some line names. */
  lemma {:induction false} QubitCountIsTight(lines: seq<Instruction>, k: nat)
    requires k <= |lines| && ParsePrefix(lines, k).Ok?
    ensures var n := ParsePrefix(lines, k).value.numQubits;
      n > 0 ==> exists i | 0 <= i < k :: Names(lines[i], n - 1)
  {
    hide BitBound, QubitBound, UpdateRegisters;
    if k > 0 {
      QubitCountIsTight(lines, k - 1);
      BoundIsNamed(lines[k - 1].targets);
      var n := ParsePrefix(lines, k).value.numQubits;
      if n > 0 && n != ParsePrefix(lines, k - 1).value.numQubits {
        assert Names(lines[k - 1], n - 1);
      }
    }
  }
}
