/**
 The simulator that updates its state in place, proved against the machine of
 module `Kickmix`, and the register input and output around it.
 */
module Simulator {
  import opened Wrappers
  import opened Binary
  import opened Kickmix
  import opened Circuits

  /** A source of measurement results: an arbitrary trajectory, consumed in order. */
  class MeasureSource {
    const trajectory: Trajectory
    var drawn: nat

    constructor (trajectory: Trajectory)
      ensures this.trajectory == trajectory && drawn == 0
    {
      this.trajectory := trajectory;
      drawn := 0;
    }

    method NextBit() returns (b: bool)
      modifies this
      ensures b == trajectory(old(drawn)) && drawn == old(drawn) + 1
    {
      b := trajectory(drawn);
      drawn := drawn + 1;
    }
  }

  class SimState {
    var qubits: seq<bool>
    var bits: seq<bool>
    /** `false` is +1, `true` is -1. */
    var phase: bool
    var condStack: seq<bool>

    constructor (numQubits: nat, numBits: nat)
      ensures qubits == seq(numQubits, i => false) && bits == seq(numBits, i => false)
      ensures !phase && condStack == []
    {
      qubits, bits := seq(numQubits, i => false), seq(numBits, i => false);
      phase, condStack := false, [];
    }

    function View(measure: MeasureSource): Machine
      reads this, measure
    {
      Machine(qubits, bits, phase, condStack, measure.drawn)
    }

    method IsActive(condition: Option<nat>) returns (r: bool)
      ensures r == (AllTrue(condStack) && (condition.Some? ==> BitAt(bits, condition.value)))
    {
      r := true;
      for i := 0 to |condStack|
        invariant r == AllTrue(condStack[..i])
      {
        r := r && condStack[i];
        assert condStack[..i + 1] == condStack[..i] + [condStack[i]];
      }
      assert condStack[..|condStack|] == condStack;
      if condition.Some? {
        r := r && BitAt(bits, condition.value);
      }
    }

    /** `ok == false` is a panic. */
    method FlipTarget(ids: Option<seq<nat>>, measure: MeasureSource) returns (ok: bool)
      requires ids.Some? ==> |ids.value| > 0
      modifies this`qubits
      ensures ok <==> Flip(old(View(measure)), ids).Some?
      ensures ok ==> Some(View(measure)) == Flip(old(View(measure)), ids)
    {
      hide Conjunction;
      if ids.None? {
        return false;
      }
      var t := ids.value[|ids.value| - 1];
      var on := Conjunction(qubits, ids.value[..|ids.value| - 1]);
      if on.None? || t >= |qubits| {
        return false;
      }
      qubits := qubits[t := qubits[t] != on.value];
      return true;
    }

    method KickSign(ids: Option<seq<nat>>, measure: MeasureSource) returns (ok: bool)
      modifies this`phase
      ensures ok <==> Kick(old(View(measure)), ids).Some?
      ensures ok ==> Some(View(measure)) == Kick(old(View(measure)), ids)
    {
      hide Conjunction;
      if ids.None? {
        return false;
      }
      var on := Conjunction(qubits, ids.value);
      if on.None? {
        return false;
      }
      if on.value {
        phase := !phase;
      }
      return true;
    }

    method SwapQubits(ids: Option<seq<nat>>, measure: MeasureSource) returns (ok: bool)
      requires ids.Some? ==> |ids.value| == 2
      modifies this`qubits
      ensures ok <==> Swap(old(View(measure)), ids).Some?
      ensures ok ==> Some(View(measure)) == Swap(old(View(measure)), ids)
    {
      if ids.None? {
        return false;
      }
      var a, b := ids.value[0], ids.value[1];
      if a >= |qubits| || b >= |qubits| {
        return false;
      }
      qubits := qubits[a := qubits[b]][b := qubits[a]];
      return true;
    }

    method ResetQubit(ids: Option<seq<nat>>, measure: MeasureSource) returns (ok: bool)
      requires ids.Some? ==> |ids.value| == 1
      modifies this, measure
      ensures ok <==> Reset(old(View(measure)), ids, measure.trajectory).Some?
      ensures ok ==> Some(View(measure)) == Reset(old(View(measure)), ids, measure.trajectory)
    {
      if ids.None? {
        return false;
      }
      var a := ids.value[0];
      if a >= |qubits| {
        return false;
      }
      if qubits[a] {
        var r := measure.NextBit();
        if r {
          phase := !phase;
        }
      }
      qubits := qubits[a := false];
      return true;
    }

    method MeasureQubit(ids: Option<seq<nat>>, output: Option<Target>, measure: MeasureSource) returns (ok: bool)
      requires ids.Some? ==> |ids.value| == 1
      modifies this, measure
      ensures ok <==> Measure(old(View(measure)), ids, output, measure.trajectory).Some?
      ensures ok ==> Some(View(measure)) == Measure(old(View(measure)), ids, output, measure.trajectory)
    {
      if ids.None? || output.None? || !output.value.ClassicalBit? {
        return false;
      }
      var a, k := ids.value[0], output.value.b;
      var r := measure.NextBit();
      if a >= |qubits| {
        return false;
      }
      if qubits[a] && r {
        phase := !phase;
      }
      if k >= |bits| {
        return false;
      }
      bits := bits[k := r];
      qubits := qubits[a := false];
      return true;
    }

    method StoreBit(targets: seq<Target>, w: BitWrite, measure: MeasureSource) returns (ok: bool)
      modifies this`bits
      ensures ok <==> WriteBit(old(View(measure)), targets, w).Some?
      ensures ok ==> Some(View(measure)) == WriteBit(old(View(measure)), targets, w)
    {
      if targets == [] {
        return false;
      }
      if targets[0].ClassicalBit? {
        var b := targets[0].b;
        if b >= |bits| {
          return false;
        }
        bits := bits[b := Written(bits[b], w)];
      }
      return true;
    }

    method ActInPlace(inst: Instruction, measure: MeasureSource) returns (ok: bool)
      requires !IsControl(inst.opcode) && !IsMetadata(inst.opcode)
      modifies this, measure
      ensures ok <==> Act(inst, old(View(measure)), measure.trajectory).Some?
      ensures ok ==> Some(View(measure)) == Act(inst, old(View(measure)), measure.trajectory)
    {
      hide Flip, Kick, Swap, Reset, Measure, WriteBit, Operands;
      var t := inst.targets;
      match inst.opcode
      case X => ok := FlipTarget(Operands(t, 1), measure);
      case CX => ok := FlipTarget(Operands(t, 2), measure);
      case CCX => ok := FlipTarget(Operands(t, 3), measure);
      case Z => ok := KickSign(Operands(t, 1), measure);
      case CZ => ok := KickSign(Operands(t, 2), measure);
      case CCZ => ok := KickSign(Operands(t, 3), measure);
      case NEG => phase := !phase; ok := true;
      case SWAP => ok := SwapQubits(Operands(t, 2), measure);
      case R => ok := ResetQubit(Operands(t, 1), measure);
      case HMR => ok := MeasureQubit(Operands(t, 1), if |t| > 1 then Some(t[1]) else None, measure);
      case BIT_INVERT => ok := StoreBit(t, Invert, measure);
      case BIT_STORE0 => ok := StoreBit(t, Store(false), measure);
      case BIT_STORE1 => ok := StoreBit(t, Store(true), measure);
      case _ => ok := false;
    }

    method StepInPlace(inst: Instruction, measure: MeasureSource) returns (ok: bool)
      modifies this, measure
      ensures ok <==> Step(inst, old(View(measure)), measure.trajectory).Some?
      ensures ok ==> Some(View(measure)) == Step(inst, old(View(measure)), measure.trajectory)
    {
      hide Act;
      if inst.opcode.PUSH_CONDITION? {
        if inst.condition.None? {
          return false;
        }
        condStack := condStack + [BitAt(bits, inst.condition.value)];
        return true;
      }
      if inst.opcode.POP_CONDITION? {
        condStack := if condStack == [] then [] else condStack[..|condStack| - 1];
        return true;
      }
      if IsMetadata(inst.opcode) {
        return true;
      }
      var active := IsActive(inst.condition);
      if !active {
        return true;
      }
      ok := ActInPlace(inst, measure);
    }

    method RunInPlace(program: seq<Instruction>, measure: MeasureSource) returns (ok: bool)
      modifies this, measure
      ensures ok <==> Run(program, old(View(measure)), measure.trajectory).Some?
      ensures ok ==> Some(View(measure)) == Run(program, old(View(measure)), measure.trajectory)
    {
      hide Step;
      ghost var m, t := View(measure), measure.trajectory;
      for k := 0 to |program|
        invariant Run(program[k..], View(measure), t) == Run(program, m, t)
      {
        assert program[k..][0] == program[k] && program[k..][1..] == program[k + 1..];
        ok := StepInPlace(program[k], measure);
        if !ok {
          return false;
        }
      }
      assert program[|program|..] == [];
      return true;
    }

    /** `load_register` */
    method LoadRegister(members: seq<nat>, value: nat)
      requires forall k | 0 <= k < |members| :: members[k] < |qubits|
      modifies this`qubits
      ensures qubits == Loaded(old(qubits), members, value, |members|)
    {
      for j := 0 to |members|
        invariant |qubits| == old(|qubits|) && qubits == Loaded(old(qubits), members, value, j)
      {
        qubits := qubits[members[j] := TestBit(value, j)];
      }
    }

    /** `read_register` */
    method ReadRegister(members: seq<nat>) returns (value: nat)
      requires forall k | 0 <= k < |members| :: members[k] < |qubits|
      ensures value == BitsValue(Gathered(qubits, members))
    {
      value := 0;
      for j := 0 to |members|
        invariant value == BitsValue(Gathered(qubits, members)[..j])
      {
        var got := Gathered(qubits, members);
        assert got[..j + 1] == got[..j] + [got[j]];
        BitsValueAppend(got[..j], got[j]);
        if qubits[members[j]] {
          BitsValueBound(got[..j]);
          OrIsAdd(value, 1, j);
          value := BitOr(value, Shl(1, j));
        }
      }
      assert Gathered(qubits, members)[..|members|] == Gathered(qubits, members);
    }
  }

  /** The first `n` members set to the low bits of `value`. */
  function Loaded(qubits: seq<bool>, members: seq<nat>, value: nat, n: nat): (q: seq<bool>)
    requires n <= |members| && forall k | 0 <= k < |members| :: members[k] < |qubits|
    ensures |q| == |qubits|
  {
    if n == 0 then qubits else Loaded(qubits, members, value, n - 1)[members[n - 1] := TestBit(value, n - 1)]
  }

  /** The bits of the members, least significant first. */
  function Gathered(qubits: seq<bool>, members: seq<nat>): (s: seq<bool>)
    requires forall k | 0 <= k < |members| :: members[k] < |qubits|
    ensures |s| == |members|
  {
    seq(|members|, j requires 0 <= j < |members| => qubits[members[j]])
  }

  /** What loading leaves in a qubit: the bit of its member, or what was there before. */
  lemma {:induction false} LoadedAt(qubits: seq<bool>, members: seq<nat>, value: nat, n: nat)
    requires n <= |members| && forall k | 0 <= k < |members| :: members[k] < |qubits|
    requires forall j, k | 0 <= j < k < |members| :: members[j] != members[k]
    ensures forall k | 0 <= k < n :: Loaded(qubits, members, value, n)[members[k]] == TestBit(value, k)
    ensures forall q | 0 <= q < |qubits| && q !in members[..n] :: Loaded(qubits, members, value, n)[q] == qubits[q]
  {
    if n > 0 {
      LoadedAt(qubits, members, value, n - 1);
      assert members[n - 1] in members[..n];
      forall q | 0 <= q < |qubits| && q !in members[..n]
        ensures Loaded(qubits, members, value, n)[q] == qubits[q]
      {
        assert q !in members[..n - 1] by {
          assert members[..n] == members[..n - 1] + [members[n - 1]];
        }
      }
    }
  }

  /** Reading back a loaded register returns the value modulo its width. */
  lemma {:induction false} LoadThenRead(qubits: seq<bool>, members: seq<nat>, value: nat)
    requires forall k | 0 <= k < |members| :: members[k] < |qubits|
    requires forall j, k | 0 <= j < k < |members| :: members[j] != members[k]
    ensures Gathered(Loaded(qubits, members, value, |members|), members) == BitsOf(value, |members|)
    ensures BitsValue(Gathered(Loaded(qubits, members, value, |members|), members)) == value % Pow2(|members|)
  {
    hide TestBit, Loaded;
    LoadedAt(qubits, members, value, |members|);
    forall j | 0 <= j < |members|
      ensures Gathered(Loaded(qubits, members, value, |members|), members)[j] == BitsOf(value, |members|)[j]
    {
      BitsOfAt(value, |members|, j);
    }
    BitsValueOfBits(value, |members|);
  }
}
