/**
 The classical reversible gates both simulators share, as functions on a bit
 vector, and their kickmix spelling.
 */
module Classical {
  import opened Wrappers
  import opened Kickmix

  datatype Gate = Not(t: nat) | Cnot(c: nat, t: nat) | Toffoli(c1: nat, c2: nat, t: nat)

  predicate Fits(g: Gate, width: nat) {
    match g
    case Not(t) => t < width
    case Cnot(c, t) => c < width && t < width
    case Toffoli(c1, c2, t) => c1 < width && c2 < width && t < width
  }

  predicate AllFit(gs: seq<Gate>, width: nat) {
    forall g | g in gs :: Fits(g, width)
  }

  function Apply(g: Gate, q: seq<bool>): (r: seq<bool>)
    requires Fits(g, |q|)
    ensures |r| == |q|
  {
    match g
    case Not(t) => q[t := !q[t]]
    case Cnot(c, t) => q[t := q[t] != q[c]]
    case Toffoli(c1, c2, t) => q[t := q[t] != (q[c1] && q[c2])]
  }

  function ApplyAll(gs: seq<Gate>, q: seq<bool>): (r: seq<bool>)
    requires AllFit(gs, |q|)
    ensures |r| == |q|
    decreases |gs|
  {
    if gs == [] then q else ApplyAll(gs[1..], Apply(gs[0], q))
  }

  /** `gs` run `k` times over. */
  function Repeat(gs: seq<Gate>, k: nat): seq<Gate> {
    if k == 0 then [] else gs + Repeat(gs, k - 1)
  }

  lemma {:induction false} ApplyConcat(a: seq<Gate>, b: seq<Gate>, q: seq<bool>)
    requires AllFit(a, |q|) && AllFit(b, |q|)
    ensures AllFit(a + b, |q|)
    ensures ApplyAll(a + b, q) == ApplyAll(b, ApplyAll(a, q))
    decreases |a|
  {
    if a == [] {
      assert a + b == b;
    } else {
      assert (a + b)[0] == a[0] && (a + b)[1..] == a[1..] + b;
      ApplyConcat(a[1..], b, Apply(a[0], q));
    }
  }

  lemma {:induction false} ApplyOne(g: Gate, q: seq<bool>)
    requires Fits(g, |q|)
    ensures ApplyAll([g], q) == Apply(g, q)
  {
    assert [g][1..] == [];
  }

  // ---------------------------------------------------------------- the kickmix spelling

  function Encode(g: Gate): Instruction {
    match g
    case Not(t) => Instruction(X, [Qubit(t)], None)
    case Cnot(c, t) => Instruction(CX, [Qubit(c), Qubit(t)], None)
    case Toffoli(c1, c2, t) => Instruction(CCX, [Qubit(c1), Qubit(c2), Qubit(t)], None)
  }

  function EncodeAll(gs: seq<Gate>): (p: seq<Instruction>)
    ensures |p| == |gs|
    ensures forall k | 0 <= k < |gs| :: p[k] == Encode(gs[k])
  {
    if gs == [] then [] else [Encode(gs[0])] + EncodeAll(gs[1..])
  }

  lemma {:induction false} StepIsApply(g: Gate, m: Machine, trajectory: Trajectory)
    requires Fits(g, |m.qubits|) && AllTrue(m.stack)
    ensures Step(Encode(g), m, trajectory) == Some(m.(qubits := Apply(g, m.qubits)))
  {
    var t, q := Encode(g).targets, m.qubits;
    match g
    case Not(a) =>
      OperandsAre(t, [a]);
      ConjunctionIs(q, []);
    case Cnot(a, b) =>
      OperandsAre(t, [a, b]);
      assert [a, b][..1] == [a];
      ConjunctionIs(q, [a]);
    case Toffoli(a, b, c) =>
      OperandsAre(t, [a, b, c]);
      assert [a, b, c][..2] == [a, b];
      ConjunctionIs(q, [a, b]);
  }

  /** A classical circuit touches the qubits only, as `ApplyAll` says, and never panics. */
  lemma {:induction false} RunIsApplyAll(gs: seq<Gate>, m: Machine, trajectory: Trajectory)
    requires AllFit(gs, |m.qubits|) && AllTrue(m.stack)
    ensures Run(EncodeAll(gs), m, trajectory) == Some(m.(qubits := ApplyAll(gs, m.qubits)))
    decreases |gs|
  {
    if gs != [] {
      StepIsApply(gs[0], m, trajectory);
      assert EncodeAll(gs)[1..] == EncodeAll(gs[1..]);
      RunIsApplyAll(gs[1..], m.(qubits := Apply(gs[0], m.qubits)), trajectory);
    }
  }
}
