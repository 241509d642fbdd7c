/** Unitary instructions undo themselves, so a unitary circuit is undone by its reverse. */
module Reversibility {
  import opened Wrappers
  import opened Kickmix
  import opened Circuits

  predicate IsUnitary(op: Opcode) {
    op.X? || op.CX? || op.CCX? || op.Z? || op.CZ? || op.CCZ? || op.NEG? || op.SWAP?
  }

  predicate Distinct(ids: seq<nat>) {
    forall i, j | 0 <= i < j < |ids| :: ids[i] != ids[j]
  }

  /** A unitary instruction on pairwise distinct qubits inside the state; an `if` condition is allowed. */
  predicate Unitary(i: Instruction, width: nat) {
    var n := QubitArity(i.opcode);
    && IsUnitary(i.opcode) && QubitOperands(i.targets, n)
    && Distinct(QubitIds(i.targets, n))
    && forall k | 0 <= k < n :: QubitIds(i.targets, n)[k] < width
  }

  function Reverse(p: seq<Instruction>): (r: seq<Instruction>)
    ensures |r| == |p|
  {
    if p == [] then [] else Reverse(p[1..]) + [p[0]]
  }

  // ---------------------------------------------------------------- one instruction

  lemma {:induction false} FlipTwice(m: Machine, ids: seq<nat>)
    requires |ids| > 0 && Distinct(ids) && forall k | 0 <= k < |ids| :: ids[k] < |m.qubits|
    ensures var r := Flip(m, Some(ids));
      r.Some? && |r.value.qubits| == |m.qubits| && Flip(r.value, Some(ids)) == Some(m)
  {
    var controls, t := ids[..|ids| - 1], ids[|ids| - 1];
    ConjunctionIs(m.qubits, controls);
    var m' := Flip(m, Some(ids)).value;
    ConjunctionIs(m'.qubits, controls);
    assert forall k | 0 <= k < |controls| :: m'.qubits[controls[k]] == m.qubits[controls[k]];
    assert m'.qubits[t := m.qubits[t]] == m.qubits;
  }

  lemma {:induction false} KickTwice(m: Machine, ids: seq<nat>)
    requires forall k | 0 <= k < |ids| :: ids[k] < |m.qubits|
    ensures var r := Kick(m, Some(ids));
      r.Some? && r.value.qubits == m.qubits && Kick(r.value, Some(ids)) == Some(m)
  {
    ConjunctionIs(m.qubits, ids);
  }

  lemma {:induction false} SwapTwice(m: Machine, ids: seq<nat>)
    requires |ids| == 2 && forall k | 0 <= k < |ids| :: ids[k] < |m.qubits|
    ensures var r := Swap(m, Some(ids));
      r.Some? && |r.value.qubits| == |m.qubits| && Swap(r.value, Some(ids)) == Some(m)
  {
    var q' := Swap(m, Some(ids)).value.qubits;
    assert q'[ids[0] := q'[ids[1]]][ids[1] := q'[ids[0]]] == m.qubits;
  }

  lemma {:induction false} ActTwice(i: Instruction, m: Machine, trajectory: Trajectory)
    requires Unitary(i, |m.qubits|)
    ensures var r := Act(i, m, trajectory);
      && r.Some? && |r.value.qubits| == |m.qubits|
      && r.value.bits == m.bits && r.value.stack == m.stack && r.value.drawn == m.drawn
      && Act(i, r.value, trajectory) == Some(m)
  {
    var ids := QubitIds(i.targets, QubitArity(i.opcode));
    OperandsAre(i.targets, ids);
    match i.opcode
    case X | CX | CCX => FlipTwice(m, ids);
    case Z | CZ | CCZ => KickTwice(m, ids);
    case SWAP => SwapTwice(m, ids);
    case _ =>
  }

  lemma {:induction false} StepTwice(i: Instruction, m: Machine, trajectory: Trajectory)
    requires Unitary(i, |m.qubits|)
    ensures var r := Step(i, m, trajectory);
      r.Some? && |r.value.qubits| == |m.qubits| && Step(i, r.value, trajectory) == Some(m)
  {
    ActTwice(i, m, trajectory);
    hide Act;
  }

  // ---------------------------------------------------------------- main results

  /**
   From every state and on every trajectory: a list of unitary instructions,
   each optionally conditional, runs to its end, and running the reversed list
   afterwards restores the whole machine.
   */
  lemma {:induction false} ReverseUndoes(p: seq<Instruction>, m: Machine, trajectory: Trajectory)
    requires forall k | 0 <= k < |p| :: Unitary(p[k], |m.qubits|)
    ensures Run(p, m, trajectory).Some?
    ensures Run(Reverse(p), Run(p, m, trajectory).value, trajectory) == Some(m)
    decreases |p|
  {
    hide Unitary, Step;
    if p != [] {
      StepTwice(p[0], m, trajectory);
      var m1 := Step(p[0], m, trajectory).value;
      ReverseUndoes(p[1..], m1, trajectory);
      RunConcat(Reverse(p[1..]), [p[0]], Run(p, m, trajectory).value, trajectory);
      RunOne(p[0], m1, trajectory);
    }
  }

  /** A unitary circuit maps different machines to different machines. */
  lemma {:induction false} UnitaryInjective(p: seq<Instruction>, a: Machine, b: Machine, trajectory: Trajectory)
    requires |a.qubits| == |b.qubits| && forall k | 0 <= k < |p| :: Unitary(p[k], |a.qubits|)
    ensures Run(p, a, trajectory) == Run(p, b, trajectory) ==> a == b
  {
    ReverseUndoes(p, a, trajectory);
    ReverseUndoes(p, b, trajectory);
  }
}
