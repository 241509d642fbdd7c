/**
 The kickmix machine: instructions, circuits, and what one instruction does to
 the qubits, classical bits, sign and condition stack. `None` stands for a
 panic of the simulator: an unknown instruction, an operand of the wrong kind,
 or an index outside the state.
 */
module Kickmix {
  import opened Wrappers

  datatype Target = Qubit(q: nat) | ClassicalBit(b: nat) | Register(r: nat)

  datatype Opcode =
    | X | CX | CCX | Z | CZ | CCZ | NEG | SWAP | R | HMR
    | BIT_INVERT | BIT_STORE0 | BIT_STORE1
    | PUSH_CONDITION | POP_CONDITION
    | REGISTER | APPEND_TO_REGISTER | DEBUG_PRINT
    | UNKNOWN(name: string)

  datatype Instruction = Instruction(opcode: Opcode, targets: seq<Target>, condition: Option<nat>)

  /** The visible state of a simulation; `drawn` counts the measurement results consumed so far. */
  datatype Machine = Machine(qubits: seq<bool>, bits: seq<bool>, phase: bool, stack: seq<bool>, drawn: nat)

  /** A measurement trajectory: the n-th random result. */
  type Trajectory = nat -> bool

  // ---------------------------------------------------------------- one instruction

  predicate AllTrue(s: seq<bool>) {
    forall i | 0 <= i < |s| :: s[i]
  }

  predicate BitAt(bits: seq<bool>, b: nat) {
    b < |bits| && bits[b]
  }

  predicate Active(m: Machine, condition: Option<nat>) {
    AllTrue(m.stack) && (condition.Some? ==> BitAt(m.bits, condition.value))
  }

  /** The first `n` targets, when all of them are qubits. */
  function Operands(targets: seq<Target>, n: nat): (r: Option<seq<nat>>)
    ensures r.Some? ==> |r.value| == n
  {
    if n == 0 then Some([])
    else if targets == [] || !targets[0].Qubit? then None
    else match Operands(targets[1..], n - 1)
      case None => None
      case Some(rest) => Some([targets[0].q] + rest)
  }

  /** The conjunction of the named qubits, evaluated left to right with short circuit. */
  function Conjunction(qubits: seq<bool>, ids: seq<nat>): Option<bool> {
    if ids == [] then Some(true)
    else if ids[0] >= |qubits| then None
    else if !qubits[ids[0]] then Some(false)
    else Conjunction(qubits, ids[1..])
  }

  /** Flip the last operand when all the others are on. */
  function Flip(m: Machine, operands: Option<seq<nat>>): Option<Machine>
    requires operands.Some? ==> |operands.value| > 0
  {
    if operands.None? then None else
    var ids := operands.value;
    var t := ids[|ids| - 1];
    var on := Conjunction(m.qubits, ids[..|ids| - 1]);
    if on.None? || t >= |m.qubits| then None
    else Some(m.(qubits := m.qubits[t := m.qubits[t] != on.value]))
  }

  /** Negate the sign when all the operands are on. */
  function Kick(m: Machine, operands: Option<seq<nat>>): Option<Machine> {
    if operands.None? then None else
    var on := Conjunction(m.qubits, operands.value);
    if on.None? then None else Some(m.(phase := m.phase != on.value))
  }

  function Swap(m: Machine, operands: Option<seq<nat>>): Option<Machine>
    requires operands.Some? ==> |operands.value| == 2
  {
    if operands.None? then None else
    var a, b := operands.value[0], operands.value[1];
    if a >= |m.qubits| || b >= |m.qubits| then None
    else Some(m.(qubits := m.qubits[a := m.qubits[b]][b := m.qubits[a]]))
  }

  function Reset(m: Machine, operands: Option<seq<nat>>, trajectory: Trajectory): Option<Machine>
    requires operands.Some? ==> |operands.value| == 1
  {
    if operands.None? then None else
    var a := operands.value[0];
    if a >= |m.qubits| then None
    else if m.qubits[a] then
      Some(m.(qubits := m.qubits[a := false], phase := m.phase != trajectory(m.drawn), drawn := m.drawn + 1))
    else Some(m.(qubits := m.qubits[a := false]))
  }

  function Measure(
      m: Machine, operands: Option<seq<nat>>, output: Option<Target>, trajectory: Trajectory): Option<Machine>
    requires operands.Some? ==> |operands.value| == 1
  {
    if operands.None? || output.None? || !output.value.ClassicalBit? then None else
    var a, k := operands.value[0], output.value.b;
    var r := trajectory(m.drawn);
    if a >= |m.qubits| || k >= |m.bits| then None
    else Some(m.(qubits := m.qubits[a := false], bits := m.bits[k := r],
                 phase := m.phase != (m.qubits[a] && r), drawn := m.drawn + 1))
  }

  datatype BitWrite = Invert | Store(value: bool)

  function Written(old_: bool, w: BitWrite): bool {
    match w
    case Invert => !old_
    case Store(v) => v
  }

  function WriteBit(m: Machine, targets: seq<Target>, w: BitWrite): Option<Machine> {
    if targets == [] then None
    else if !targets[0].ClassicalBit? then Some(m)
    else
      var b := targets[0].b;
      if b >= |m.bits| then None else Some(m.(bits := m.bits[b := Written(m.bits[b], w)]))
  }

  predicate IsMetadata(op: Opcode) {
    op.REGISTER? || op.APPEND_TO_REGISTER? || op.DEBUG_PRINT?
  }

  predicate IsControl(op: Opcode) {
    op.PUSH_CONDITION? || op.POP_CONDITION?
  }

  /** How many leading targets must be qubits. */
  function QubitArity(op: Opcode): nat {
    match op
    case X | Z | R | HMR => 1
    case CX | CZ | SWAP => 2
    case CCX | CCZ => 3
    case _ => 0
  }

  /** What an active gate, measurement or classical write does. */
  function Act(inst: Instruction, m: Machine, trajectory: Trajectory): Option<Machine> {
    var t := inst.targets;
    match inst.opcode
    case X => Flip(m, Operands(t, 1))
    case CX => Flip(m, Operands(t, 2))
    case CCX => Flip(m, Operands(t, 3))
    case Z => Kick(m, Operands(t, 1))
    case CZ => Kick(m, Operands(t, 2))
    case CCZ => Kick(m, Operands(t, 3))
    case NEG => Some(m.(phase := !m.phase))
    case SWAP => Swap(m, Operands(t, 2))
    case R => Reset(m, Operands(t, 1), trajectory)
    case HMR => Measure(m, Operands(t, 1), if |t| > 1 then Some(t[1]) else None, trajectory)
    case BIT_INVERT => WriteBit(m, t, Invert)
    case BIT_STORE0 => WriteBit(m, t, Store(false))
    case BIT_STORE1 => WriteBit(m, t, Store(true))
    case _ => None
  }

  function Step(inst: Instruction, m: Machine, trajectory: Trajectory): Option<Machine> {
    if inst.opcode.PUSH_CONDITION? then
      if inst.condition.None? then None
      else Some(m.(stack := m.stack + [BitAt(m.bits, inst.condition.value)]))
    else if inst.opcode.POP_CONDITION? then
      Some(m.(stack := if m.stack == [] then [] else m.stack[..|m.stack| - 1]))
    else if IsMetadata(inst.opcode) then Some(m)
    else if !Active(m, inst.condition) then Some(m)
    else Act(inst, m, trajectory)
  }

  function Run(program: seq<Instruction>, m: Machine, trajectory: Trajectory): Option<Machine>
    decreases |program|
  {
    if program == [] then Some(m)
    else match Step(program[0], m, trajectory)
      case None => None
      case Some(m') => Run(program[1..], m', trajectory)
  }

  // ---------------------------------------------------------------- general facts

  lemma {:induction false} OperandsAre(targets: seq<Target>, ids: seq<nat>)
    requires |ids| <= |targets| && forall i | 0 <= i < |ids| :: targets[i] == Qubit(ids[i])
    ensures Operands(targets, |ids|) == Some(ids)
  {
    if ids != [] {
      OperandsAre(targets[1..], ids[1..]);
      assert [ids[0]] + ids[1..] == ids;
    }
  }

  predicate AllOn(qubits: seq<bool>, ids: seq<nat>)
    requires forall i | 0 <= i < |ids| :: ids[i] < |qubits|
  {
    forall i | 0 <= i < |ids| :: qubits[ids[i]]
  }

  lemma {:induction false} ConjunctionIs(qubits: seq<bool>, ids: seq<nat>)
    requires forall i | 0 <= i < |ids| :: ids[i] < |qubits|
    ensures Conjunction(qubits, ids) == Some(AllOn(qubits, ids))
  {
    if ids != [] {
      ConjunctionIs(qubits, ids[1..]);
      if AllOn(qubits, ids[1..]) && qubits[ids[0]] {
        forall i | 0 <= i < |ids| ensures qubits[ids[i]] {
          if i > 0 {
            assert ids[1..][i - 1] == ids[i];
          }
        }
      }
    }
  }

  function QubitTargets(ids: seq<nat>): (t: seq<Target>)
    ensures |t| == |ids|
  {
    seq(|ids|, i requires 0 <= i < |ids| => Qubit(ids[i]))
  }

  /** Z, CZ and CCZ negate the sign exactly when every operand is on and every condition holds. */
  lemma {:induction false} PhaseGateKicks(
      op: Opcode, ids: seq<nat>, condition: Option<nat>, m: Machine, trajectory: Trajectory)
    requires (op.Z? || op.CZ? || op.CCZ?) && |ids| == QubitArity(op)
    requires forall i | 0 <= i < |ids| :: ids[i] < |m.qubits|
    ensures Step(Instruction(op, QubitTargets(ids), condition), m, trajectory)
         == Some(m.(phase := m.phase != (Active(m, condition) && AllOn(m.qubits, ids))))
  {
    OperandsAre(QubitTargets(ids), ids);
    ConjunctionIs(m.qubits, ids);
  }

  /** X, CX and CCX flip their last operand exactly when the others are on and every condition holds. */
  lemma {:induction false} FlipGateFlips(
      op: Opcode, ids: seq<nat>, condition: Option<nat>, m: Machine, trajectory: Trajectory)
    requires (op.X? || op.CX? || op.CCX?) && |ids| == QubitArity(op)
    requires forall i | 0 <= i < |ids| :: ids[i] < |m.qubits|
    ensures |ids| > 0
    ensures var t := ids[|ids| - 1];
      Step(Instruction(op, QubitTargets(ids), condition), m, trajectory)
        == Some(m.(qubits := m.qubits[t := m.qubits[t] != (Active(m, condition) && AllOn(m.qubits, ids[..|ids| - 1]))]))
  {
    OperandsAre(QubitTargets(ids), ids);
    ConjunctionIs(m.qubits, ids[..|ids| - 1]);
    var t := ids[|ids| - 1];
    assert m.qubits[t := m.qubits[t]] == m.qubits;
  }

  /** NEG negates the sign, and SWAP exchanges its two qubits, when every condition holds. */
  lemma {:induction false} NegAndSwap(a: nat, b: nat, condition: Option<nat>, m: Machine, trajectory: Trajectory)
    requires a < |m.qubits| && b < |m.qubits|
    ensures Step(Instruction(NEG, [], condition), m, trajectory) == Some(m.(phase := m.phase != Active(m, condition)))
    ensures var r := Step(Instruction(SWAP, [Qubit(a), Qubit(b)], condition), m, trajectory);
      && r.Some? && r.value == m.(qubits := r.value.qubits) && |r.value.qubits| == |m.qubits|
      && (!Active(m, condition) ==> r.value == m)
      && (Active(m, condition) ==>
           && r.value.qubits[a] == m.qubits[b] && r.value.qubits[b] == m.qubits[a]
           && forall q | 0 <= q < |m.qubits| && q != a && q != b :: r.value.qubits[q] == m.qubits[q])
  {
    OperandsAre([Qubit(a), Qubit(b)], [a, b]);
  }

  /**
   R turns its qubit off.  Only a qubit that was on draws a measurement result,
   which then kicks the sign.
   */
  lemma {:induction false} ResetClears(a: nat, condition: Option<nat>, m: Machine, trajectory: Trajectory)
    requires a < |m.qubits|
    ensures var r, active := Step(Instruction(R, [Qubit(a)], condition), m, trajectory), Active(m, condition);
      && r.Some? && r.value.bits == m.bits && r.value.stack == m.stack
      && r.value.qubits == (if active then m.qubits[a := false] else m.qubits)
      && r.value.drawn == m.drawn + (if active && m.qubits[a] then 1 else 0)
      && r.value.phase == (m.phase != (active && m.qubits[a] && trajectory(m.drawn)))
  {
    OperandsAre([Qubit(a)], [a]);
  }

  /**
   HMR draws a result, stores it, kicks the sign if the qubit was on and the
   result is on, and turns the qubit off.
   */
  lemma {:induction false} MeasureKicks(a: nat, b: nat, condition: Option<nat>, m: Machine, trajectory: Trajectory)
    requires a < |m.qubits| && b < |m.bits|
    ensures var r, active := Step(Instruction(HMR, [Qubit(a), ClassicalBit(b)], condition), m, trajectory), Active(m, condition);
      && r.Some? && r.value.stack == m.stack
      && r.value.qubits == (if active then m.qubits[a := false] else m.qubits)
      && r.value.bits == (if active then m.bits[b := trajectory(m.drawn)] else m.bits)
      && r.value.drawn == m.drawn + (if active then 1 else 0)
      && r.value.phase == (m.phase != (active && m.qubits[a] && trajectory(m.drawn)))
  {
    OperandsAre([Qubit(a), ClassicalBit(b)], [a]);
  }

  /** BIT_INVERT, BIT_STORE0 and BIT_STORE1 write their one bit when every condition holds. */
  lemma {:induction false} BitWritesWrite(op: Opcode, b: nat, condition: Option<nat>, m: Machine, trajectory: Trajectory)
    requires (op.BIT_INVERT? || op.BIT_STORE0? || op.BIT_STORE1?) && b < |m.bits|
    ensures var r := Step(Instruction(op, [ClassicalBit(b)], condition), m, trajectory);
      && r.Some? && r.value == m.(bits := r.value.bits) && |r.value.bits| == |m.bits|
      && (forall k | 0 <= k < |m.bits| && (k != b || !Active(m, condition)) :: r.value.bits[k] == m.bits[k])
      && (Active(m, condition) ==>
           r.value.bits[b] == (op.BIT_STORE1? || (op.BIT_INVERT? && !m.bits[b])))
  {
  }

  /** PUSH_CONDITION stacks the bit, off if there is none; POP_CONDITION drops the top if there is one. */
  lemma {:induction false} ConditionsStack(bit: nat, m: Machine, stack: seq<bool>, top: bool, trajectory: Trajectory)
    ensures Step(Instruction(PUSH_CONDITION, [], Some(bit)), m, trajectory)
         == Some(m.(stack := m.stack + [bit < |m.bits| && m.bits[bit]]))
    ensures Step(Instruction(POP_CONDITION, [], None), m.(stack := stack + [top]), trajectory) == Some(m.(stack := stack))
    ensures Step(Instruction(POP_CONDITION, [], None), m.(stack := []), trajectory) == Some(m.(stack := []))
  {
    hide Act, Active;
    assert (stack + [top])[..|stack|] == stack;
  }

  /** An instruction acts exactly when every stacked condition and its own hold. */
  lemma {:induction false} InactiveDoesNothing(inst: Instruction, m: Machine, trajectory: Trajectory)
    requires !IsControl(inst.opcode) && !Active(m, inst.condition)
    ensures Step(inst, m, trajectory) == Some(m)
  {
  }

  function AndThen(r: Option<Machine>, program: seq<Instruction>, trajectory: Trajectory): Option<Machine> {
    if r.None? then None else Run(program, r.value, trajectory)
  }

  lemma {:induction false} RunConcat(p: seq<Instruction>, q: seq<Instruction>, m: Machine, trajectory: Trajectory)
    ensures Run(p + q, m, trajectory) == AndThen(Run(p, m, trajectory), q, trajectory)
    decreases |p|
  {
    if p == [] {
      assert p + q == q;
    } else {
      assert (p + q)[0] == p[0] && (p + q)[1..] == p[1..] + q;
      var r := Step(p[0], m, trajectory);
      if r.Some? {
        RunConcat(p[1..], q, r.value, trajectory);
      }
    }
  }

  lemma {:induction false} RunOne(i: Instruction, m: Machine, trajectory: Trajectory)
    ensures Run([i], m, trajectory) == Step(i, m, trajectory)
  {
    assert [i][1..] == [];
  }

  ghost predicate SameShape(m: Machine, r: Option<Machine>) {
    r.Some? ==> |r.value.qubits| == |m.qubits| && |r.value.bits| == |m.bits| && r.value.drawn >= m.drawn
  }

  lemma {:induction false} ActKeepsShape(i: Instruction, m: Machine, trajectory: Trajectory)
    ensures var r := Act(i, m, trajectory); SameShape(m, r) && (r.Some? ==> r.value.stack == m.stack)
  {
    hide Operands, Conjunction, Written;
  }

  /** An instruction never resizes the qubits or the bits, and never un-draws a measurement. */
  lemma {:induction false} StepKeepsShape(i: Instruction, m: Machine, trajectory: Trajectory)
    ensures SameShape(m, Step(i, m, trajectory))
  {
    ActKeepsShape(i, m, trajectory);
  }

  lemma {:induction false} RunKeepsShape(p: seq<Instruction>, m: Machine, trajectory: Trajectory)
    ensures SameShape(m, Run(p, m, trajectory))
    decreases |p|
  {
    if p != [] {
      var r := Step(p[0], m, trajectory);
      if r.Some? {
        StepKeepsShape(p[0], m, trajectory);
        RunKeepsShape(p[1..], r.value, trajectory);
      }
    }
  }
}
