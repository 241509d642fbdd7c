/**
 Measurement-based uncomputation: erasing an AND by an X-basis measurement and
 a conditional phase fix-up does what the second Toffoli would have done.
 */
module Uncomputation {
  import opened Wrappers
  import opened Kickmix

  /** A circuit line, or the erasure of `t == a && b` using classical bit `k`. */
  datatype Item =
    | Plain(inst: Instruction)
    | EraseAnd(a: nat, b: nat, t: nat, k: nat)

  function ByToffoli(i: Item): seq<Instruction> {
    match i
    case Plain(inst) => [inst]
    case EraseAnd(a, b, t, _) => [Instruction(CCX, [Qubit(a), Qubit(b), Qubit(t)], None)]
  }

  function ByMeasurement(i: Item): seq<Instruction> {
    match i
    case Plain(inst) => [inst]
    case EraseAnd(a, b, t, k) =>
      [Instruction(HMR, [Qubit(t), ClassicalBit(k)], None), Instruction(CZ, [Qubit(a), Qubit(b)], Some(k))]
  }

  function AllByToffoli(p: seq<Item>): seq<Instruction> {
    if p == [] then [] else ByToffoli(p[0]) + AllByToffoli(p[1..])
  }

  function AllByMeasurement(p: seq<Item>): seq<Instruction> {
    if p == [] then [] else ByMeasurement(p[0]) + AllByMeasurement(p[1..])
  }

  /** The instruction neither reads nor writes a bit of `spare`, and draws no measurement. */
  predicate Avoids(i: Instruction, spare: set<nat>) {
    && !i.opcode.HMR? && !i.opcode.R?
    && (i.condition.Some? ==> i.condition.value !in spare)
    && forall j | 0 <= j < |i.targets| :: i.targets[j].ClassicalBit? ==> i.targets[j].b !in spare
  }

  /** Every erased AND is a distinct triple of qubits inside the state; its bit is kept for erasures. */
  predicate ItemOk(i: Item, width: nat, numBits: nat, spare: set<nat>) {
    match i
    case Plain(inst) => Avoids(inst, spare)
    case EraseAnd(a, b, t, k) =>
      a < width && b < width && t < width && a != t && b != t && k < numBits && k in spare
  }

  /** Whenever an active erasure is reached, the target holds the AND, so that the Toffoli clears it. */
  predicate ClearsAt(i: Item, m: Machine) {
    match i
    case Plain(_) => true
    case EraseAnd(a, b, t, _) =>
      AllTrue(m.stack) && a < |m.qubits| && b < |m.qubits| && t < |m.qubits| ==>
        m.qubits[t] == (m.qubits[a] && m.qubits[b])
  }

  predicate AlwaysClears(p: seq<Item>, m: Machine, trajectory: Trajectory)
    decreases |p|
  {
    p == [] ||
    (ClearsAt(p[0], m) &&
     (var r := Run(ByToffoli(p[0]), m, trajectory); r.Some? ==> AlwaysClears(p[1..], r.value, trajectory)))
  }

  /** Equal up to the bits of `spare` and the number of measurements drawn. */
  predicate Alike(m: Machine, u: Machine, spare: set<nat>) {
    && m.qubits == u.qubits && m.phase == u.phase && m.stack == u.stack && |m.bits| == |u.bits|
    && forall j | 0 <= j < |m.bits| && j !in spare :: m.bits[j] == u.bits[j]
  }

  predicate BothAlike(r: Option<Machine>, v: Option<Machine>, spare: set<nat>) {
    (r.Some? <==> v.Some?) && (r.Some? ==> Alike(r.value, v.value, spare))
  }

  // ---------------------------------------------------------------- plain instructions

  lemma {:induction false} EffectsAlike(
    m: Machine, u: Machine, spare: set<nat>, ids: Option<seq<nat>>, targets: seq<Target>, w: BitWrite)
    requires Alike(m, u, spare)
    requires targets != [] && targets[0].ClassicalBit? ==> targets[0].b !in spare
    ensures ids.Some? && |ids.value| > 0 ==> BothAlike(Flip(m, ids), Flip(u, ids), spare)
    ensures BothAlike(Kick(m, ids), Kick(u, ids), spare)
    ensures ids.Some? && |ids.value| == 2 ==> BothAlike(Swap(m, ids), Swap(u, ids), spare)
    ensures BothAlike(WriteBit(m, targets, w), WriteBit(u, targets, w), spare)
  {
    hide Conjunction, Written;
  }

  lemma {:induction false} ActAlike(i: Instruction, m: Machine, u: Machine, spare: set<nat>, trajectory: Trajectory)
    requires Avoids(i, spare) && Alike(m, u, spare)
    ensures BothAlike(Act(i, m, trajectory), Act(i, u, trajectory), spare)
  {
    var t := i.targets;
    var ids := Operands(t, QubitArity(i.opcode));
    var w := if i.opcode.BIT_INVERT? then Invert else Store(i.opcode.BIT_STORE1?);
    EffectsAlike(m, u, spare, ids, t, w);
    if ids.None? {
      hide Operands, Conjunction, WriteBit;
    } else {
      hide Operands, Flip, Kick, Swap, WriteBit;
    }
  }

  lemma {:induction false} StepAlike(i: Instruction, m: Machine, u: Machine, spare: set<nat>, trajectory: Trajectory)
    requires Avoids(i, spare) && Alike(m, u, spare)
    ensures BothAlike(Step(i, m, trajectory), Step(i, u, trajectory), spare)
  {
    ActAlike(i, m, u, spare, trajectory);
    hide Act;
  }

  // ---------------------------------------------------------------- an erasure

  lemma {:induction false} ToffoliErases(a: nat, b: nat, t: nat, k: nat, m: Machine, trajectory: Trajectory)
    requires a < |m.qubits| && b < |m.qubits| && t < |m.qubits| && AllTrue(m.stack)
    requires m.qubits[t] == (m.qubits[a] && m.qubits[b])
    ensures Run(ByToffoli(EraseAnd(a, b, t, k)), m, trajectory) == Some(m.(qubits := m.qubits[t := false]))
  {
    var i := Instruction(CCX, [Qubit(a), Qubit(b), Qubit(t)], None);
    RunOne(i, m, trajectory);
    OperandsAre(i.targets, [a, b, t]);
    assert [a, b, t][..2] == [a, b];
    ConjunctionIs(m.qubits, [a, b]);
  }

  lemma {:induction false} MeasurementErases(a: nat, b: nat, t: nat, k: nat, u: Machine, trajectory: Trajectory)
    requires a < |u.qubits| && b < |u.qubits| && t < |u.qubits| && a != t && b != t && k < |u.bits| && AllTrue(u.stack)
    requires u.qubits[t] == (u.qubits[a] && u.qubits[b])
    ensures Run(ByMeasurement(EraseAnd(a, b, t, k)), u, trajectory)
         == Some(u.(qubits := u.qubits[t := false], bits := u.bits[k := trajectory(u.drawn)], drawn := u.drawn + 1))
  {
    var h := Instruction(HMR, [Qubit(t), ClassicalBit(k)], None);
    var z := Instruction(CZ, [Qubit(a), Qubit(b)], Some(k));
    assert ByMeasurement(EraseAnd(a, b, t, k)) == [h] + [z];
    RunConcat([h], [z], u, trajectory);
    RunOne(h, u, trajectory);
    OperandsAre(h.targets, [t]);
    var v := Step(h, u, trajectory).value;
    RunOne(z, v, trajectory);
    OperandsAre(z.targets, [a, b]);
    ConjunctionIs(v.qubits, [a, b]);
    assert v.qubits[a] == u.qubits[a] && v.qubits[b] == u.qubits[b];
  }

  lemma {:induction false} InactiveErasure(i: Item, m: Machine, trajectory: Trajectory)
    requires i.EraseAnd? && !AllTrue(m.stack)
    ensures Run(ByToffoli(i), m, trajectory) == Some(m) == Run(ByMeasurement(i), m, trajectory)
  {
    RunOne(ByToffoli(i)[0], m, trajectory);
    RunOne(ByMeasurement(i)[1], m, trajectory);
    assert ByMeasurement(i) == [ByMeasurement(i)[0]] + [ByMeasurement(i)[1]];
    RunOne(ByMeasurement(i)[0], m, trajectory);
    RunConcat([ByMeasurement(i)[0]], [ByMeasurement(i)[1]], m, trajectory);
  }

  lemma {:induction false} ItemAlike(i: Item, m: Machine, u: Machine, spare: set<nat>, trajectory: Trajectory)
    requires ItemOk(i, |m.qubits|, |m.bits|, spare) && ClearsAt(i, m) && Alike(m, u, spare)
    ensures BothAlike(Run(ByToffoli(i), m, trajectory), Run(ByMeasurement(i), u, trajectory), spare)
  {
    match i
    case Plain(inst) =>
      RunOne(inst, m, trajectory);
      RunOne(inst, u, trajectory);
      StepAlike(inst, m, u, spare, trajectory);
      hide Step, Run;
    case EraseAnd(a, b, t, k) =>
      if AllTrue(m.stack) {
        ToffoliErases(a, b, t, k, m, trajectory);
        MeasurementErases(a, b, t, k, u, trajectory);
        hide Step, Run;
      } else {
        InactiveErasure(i, m, trajectory);
        InactiveErasure(i, u, trajectory);
        hide Step, Run;
      }
  }

  // ---------------------------------------------------------------- main result

  /**
   In every circuit whose other lines draw no measurement and leave the erasure
   bits alone, replacing each Toffoli that clears an AND by a measurement and a
   conditional CZ gives the same qubits, the same sign and the same other bits,
   on every trajectory and from every state.
   */
  lemma {:induction false} MeasurementRefinesToffoli(
    p: seq<Item>, m: Machine, u: Machine, spare: set<nat>, trajectory: Trajectory)
    requires forall j | 0 <= j < |p| :: ItemOk(p[j], |m.qubits|, |m.bits|, spare)
    requires AlwaysClears(p, m, trajectory) && Alike(m, u, spare)
    ensures BothAlike(Run(AllByToffoli(p), m, trajectory), Run(AllByMeasurement(p), u, trajectory), spare)
    decreases |p|
  {
    hide ItemOk, ByToffoli, ByMeasurement, ClearsAt;
    if p != [] {
      ItemAlike(p[0], m, u, spare, trajectory);
      RunConcat(ByToffoli(p[0]), AllByToffoli(p[1..]), m, trajectory);
      RunConcat(ByMeasurement(p[0]), AllByMeasurement(p[1..]), u, trajectory);
      var r, v := Run(ByToffoli(p[0]), m, trajectory), Run(ByMeasurement(p[0]), u, trajectory);
      RunKeepsShape(ByToffoli(p[0]), m, trajectory);
      if r.Some? {
        MeasurementRefinesToffoli(p[1..], r.value, v.value, spare, trajectory);
      }
    }
  }
}
