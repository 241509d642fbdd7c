/**
 The flat condition stack against structured conditionals: a block between
 PUSH_CONDITION and POP_CONDITION runs exactly when its bit was on at entry.
 */
module Conditions {
  import opened Wrappers
  import opened Kickmix

  /** Properly nested programs: instructions, and blocks guarded by a classical bit. */
  datatype Program =
    | Done
    | Then(inst: Instruction, rest: Program)
    | When(bit: nat, body: Program, after: Program)

  predicate NoControl(p: Program) {
    match p
    case Done => true
    case Then(inst, rest) => !IsControl(inst.opcode) && NoControl(rest)
    case When(_, body, after) => NoControl(body) && NoControl(after)
  }

  function Push(bit: nat): Instruction {
    Instruction(PUSH_CONDITION, [], Some(bit))
  }

  function Pop(): Instruction {
    Instruction(POP_CONDITION, [], None)
  }

  function Flatten(p: Program): seq<Instruction> {
    match p
    case Done => []
    case Then(inst, rest) => [inst] + Flatten(rest)
    case When(bit, body, after) => [Push(bit)] + Flatten(body) + [Pop()] + Flatten(after)
  }

  /** Structured execution, on a machine whose own stack is never touched. */
  function Execute(p: Program, m: Machine, trajectory: Trajectory): Option<Machine> {
    match p
    case Done => Some(m)
    case Then(inst, rest) =>
      (match Step(inst, m, trajectory)
       case None => None
       case Some(m') => Execute(rest, m', trajectory))
    case When(bit, body, after) =>
      if !BitAt(m.bits, bit) then Execute(after, m, trajectory)
      else match Execute(body, m, trajectory)
        case None => None
        case Some(m') => Execute(after, m', trajectory)
  }

  function WithStack(r: Option<Machine>, stack: seq<bool>): Option<Machine> {
    if r.None? then None else Some(r.value.(stack := stack))
  }

  // ---------------------------------------------------------------- one instruction under a deeper stack

  lemma {:induction false} EffectsIgnoreStack(
    m: Machine, stack: seq<bool>, ids: Option<seq<nat>>, output: Option<Target>, targets: seq<Target>, w: BitWrite,
    trajectory: Trajectory)
    ensures ids.Some? && |ids.value| > 0 ==> Flip(m.(stack := stack), ids) == WithStack(Flip(m, ids), stack)
    ensures Kick(m.(stack := stack), ids) == WithStack(Kick(m, ids), stack)
    ensures ids.Some? && |ids.value| == 2 ==> Swap(m.(stack := stack), ids) == WithStack(Swap(m, ids), stack)
    ensures ids.Some? && |ids.value| == 1 ==>
      Reset(m.(stack := stack), ids, trajectory) == WithStack(Reset(m, ids, trajectory), stack)
    ensures ids.Some? && |ids.value| == 1 ==>
      Measure(m.(stack := stack), ids, output, trajectory) == WithStack(Measure(m, ids, output, trajectory), stack)
    ensures WriteBit(m.(stack := stack), targets, w) == WithStack(WriteBit(m, targets, w), stack)
  {
    hide Conjunction, Written;
  }

  lemma {:induction false} ActIgnoresStack(i: Instruction, m: Machine, stack: seq<bool>, trajectory: Trajectory)
    ensures Act(i, m.(stack := stack), trajectory) == WithStack(Act(i, m, trajectory), stack)
  {
    var t := i.targets;
    var ids := Operands(t, QubitArity(i.opcode));
    var w := if i.opcode.BIT_INVERT? then Invert else Store(i.opcode.BIT_STORE1?);
    EffectsIgnoreStack(m, stack, ids, if |t| > 1 then Some(t[1]) else None, t, w, trajectory);
    if ids.None? {
      hide Operands, Conjunction, WriteBit;
    } else {
      hide Operands, Flip, Kick, Swap, Reset, Measure, WriteBit;
    }
  }

  /** Only whether every condition holds matters, not how many there are. */
  lemma {:induction false} StepUnderTrueStack(i: Instruction, m: Machine, stack: seq<bool>, trajectory: Trajectory)
    requires !IsControl(i.opcode) && AllTrue(stack) && AllTrue(m.stack)
    ensures Step(i, m.(stack := stack), trajectory) == WithStack(Step(i, m, trajectory), stack)
    ensures Step(i, m, trajectory).Some? ==> Step(i, m, trajectory).value.stack == m.stack
  {
    ActIgnoresStack(i, m, stack, trajectory);
    ActIgnoresStack(i, m, m.stack, trajectory);
    assert m.(stack := m.stack) == m;
    hide Act;
  }

  lemma {:induction false} PushThenPop(stack: seq<bool>, b: bool)
    ensures (stack + [b])[..|stack|] == stack
    ensures AllTrue(stack + [b]) <==> AllTrue(stack) && b
  {
    if AllTrue(stack + [b]) {
      assert (stack + [b])[|stack|] == b;
      forall i | 0 <= i < |stack| ensures stack[i] {
        assert (stack + [b])[i] == stack[i];
      }
    }
  }

  lemma {:induction false} RunFlattenedWhen(
      bit: nat, body: seq<Instruction>, after: seq<Instruction>, m: Machine, trajectory: Trajectory)
    ensures
      var inside := Run(body, m.(stack := m.stack + [BitAt(m.bits, bit)]), trajectory);
      Run([Push(bit)] + body + [Pop()] + after, m, trajectory)
        == if inside.None? then None
           else Run(after, inside.value.(stack :=
             if inside.value.stack == [] then [] else inside.value.stack[..|inside.value.stack| - 1]), trajectory)
  {
    RunOne(Push(bit), m, trajectory);
    RunConcat([Push(bit)], body, m, trajectory);
    RunConcat([Push(bit)] + body, [Pop()], m, trajectory);
    RunConcat([Push(bit)] + body + [Pop()], after, m, trajectory);
    var inside := Run(body, m.(stack := m.stack + [BitAt(m.bits, bit)]), trajectory);
    if inside.Some? {
      RunOne(Pop(), inside.value, trajectory);
    }
  }

  // ---------------------------------------------------------------- main results

  /**
   Under a false condition, at any depth, a nested program changes no qubit,
   bit or sign, draws no measurement result and leaves the stack as it found it.
   */
  lemma {:induction false} FalseBlockIsSkipped(p: Program, m: Machine, trajectory: Trajectory)
    requires NoControl(p) && !AllTrue(m.stack)
    ensures Run(Flatten(p), m, trajectory) == Some(m)
  {
    match p
    case Done =>
    case Then(inst, rest) =>
      assert Flatten(p)[0] == inst && Flatten(p)[1..] == Flatten(rest);
      FalseBlockIsSkipped(rest, m, trajectory);
    case When(bit, body, after) =>
      var b := BitAt(m.bits, bit);
      PushThenPop(m.stack, b);
      FalseBlockIsSkipped(body, m.(stack := m.stack + [b]), trajectory);
      FalseBlockIsSkipped(after, m, trajectory);
      RunFlattenedWhen(bit, Flatten(body), Flatten(after), m, trajectory);
  }

  /**
   Under true conditions the flat program does what the structured one does,
   and puts the stack back.
   */
  lemma {:induction false} FlatRefinesStructured(p: Program, m: Machine, stack: seq<bool>, trajectory: Trajectory)
    requires NoControl(p) && AllTrue(m.stack) && AllTrue(stack)
    ensures Run(Flatten(p), m.(stack := stack), trajectory) == WithStack(Execute(p, m, trajectory), stack)
    ensures Execute(p, m, trajectory).Some? ==> Execute(p, m, trajectory).value.stack == m.stack
    decreases p, 1
  {
    match p
    case Done =>
    case Then(inst, rest) =>
      assert Flatten(p)[0] == inst && Flatten(p)[1..] == Flatten(rest);
      StepUnderTrueStack(inst, m, stack, trajectory);
      var r := Step(inst, m, trajectory);
      if r.Some? {
        FlatRefinesStructured(rest, r.value, stack, trajectory);
      }
    case When(bit, body, after) =>
      WhenRefines(bit, body, after, m, stack, trajectory);
  }

  lemma {:induction false} WhenRefines(
      bit: nat, body: Program, after: Program, m: Machine, stack: seq<bool>, trajectory: Trajectory)
    requires NoControl(body) && NoControl(after) && AllTrue(m.stack) && AllTrue(stack)
    ensures Run(Flatten(When(bit, body, after)), m.(stack := stack), trajectory)
         == WithStack(Execute(When(bit, body, after), m, trajectory), stack)
    ensures var r := Execute(When(bit, body, after), m, trajectory); r.Some? ==> r.value.stack == m.stack
    decreases When(bit, body, after), 0
  {
    var b := BitAt(m.bits, bit);
    PushThenPop(stack, b);
    RunFlattenedWhen(bit, Flatten(body), Flatten(after), m.(stack := stack), trajectory);
    if b {
      FlatRefinesStructured(body, m, stack + [b], trajectory);
      var r := Execute(body, m, trajectory);
      if r.Some? {
        FlatRefinesStructured(after, r.value, stack, trajectory);
      }
    } else {
      FalseBlockIsSkipped(body, m.(stack := stack + [b]), trajectory);
      FlatRefinesStructured(after, m, stack, trajectory);
    }
  }

  // ---------------------------------------------------------------- every balanced program is nested

  /** Every pop closes a push with a condition, `depth` of them opened before, and none is left open. */
  predicate Balanced(p: seq<Instruction>, depth: nat) {
    if p == [] then depth == 0
    else if p[0].opcode.PUSH_CONDITION? then p[0].condition.Some? && Balanced(p[1..], depth + 1)
    else if p[0].opcode.POP_CONDITION? then depth > 0 && Balanced(p[1..], depth - 1)
    else Balanced(p[1..], depth)
  }

  /** A control line without the operands that the simulator ignores. */
  function Normal(i: Instruction): Instruction {
    if i.opcode.PUSH_CONDITION? && i.condition.Some? then Push(i.condition.value)
    else if i.opcode.POP_CONDITION? then Pop()
    else i
  }

  function NormalAll(p: seq<Instruction>): (s: seq<Instruction>)
    ensures |s| == |p|
  {
    if p == [] then [] else [Normal(p[0])] + NormalAll(p[1..])
  }

  lemma {:induction false} RunNormal(p: seq<Instruction>, m: Machine, trajectory: Trajectory)
    ensures Run(NormalAll(p), m, trajectory) == Run(p, m, trajectory)
    decreases |p|
  {
    if p != [] {
      var i := p[0];
      assert Step(Normal(i), m, trajectory) == Step(i, m, trajectory) by { hide Act; }
      assert NormalAll(p)[1..] == NormalAll(p[1..]);
      var r := Step(i, m, trajectory);
      hide Step, Normal;
      if r.Some? {
        RunNormal(p[1..], r.value, trajectory);
      }
    }
  }

  lemma {:induction false} Regroup(
      x: Instruction, a: seq<Instruction>, y: Instruction, b: seq<Instruction>, t: seq<Instruction>)
    ensures [x] + a + [y] + b + t == [x] + (a + ([y] + (b + t)))
    ensures [x] + (a + [y] + (b + t)) == [x] + a + [y] + b + t
    ensures [x] + (a + t) == [x] + a + t
    ensures [x] + (a + [y] + b) == [x] + a + [y] + b
  {
  }

  /** The nested program of the lines up to the pop that closes the enclosing block, and the lines after that pop. */
  lemma {:induction false} Nest(p: seq<Instruction>, depth: nat) returns (program: Program, after: seq<Instruction>)
    requires Balanced(p, depth)
    ensures NoControl(program)
    ensures depth == 0 ==> after == [] && NormalAll(p) == Flatten(program)
    ensures depth > 0 ==> |after| < |p| && Balanced(after, depth - 1)
                          && NormalAll(p) == Flatten(program) + [Pop()] + NormalAll(after)
    decreases |p|
  {
    hide Normal, NormalAll;
    NormalStep(p);
    if p == [] {
      program, after := Done, [];
    } else if p[0].opcode.POP_CONDITION? {
      program, after := Done, p[1..];
    } else if p[0].opcode.PUSH_CONDITION? {
      var body, tail := Nest(p[1..], depth + 1);
      var rest;
      rest, after := Nest(tail, depth);
      program := When(p[0].condition.value, body, rest);
      assert Flatten(program) == [Normal(p[0])] + Flatten(body) + [Pop()] + Flatten(rest);
      hide Flatten, Balanced;
      Regroup(Normal(p[0]), Flatten(body), Pop(), Flatten(rest), [Pop()] + NormalAll(after));
      if depth > 0 {
        assert [Normal(p[0])] + Flatten(body) + [Pop()] + Flatten(rest) + ([Pop()] + NormalAll(after))
            == [Normal(p[0])] + Flatten(body) + [Pop()] + Flatten(rest) + [Pop()] + NormalAll(after);
        assert Flatten(rest) + ([Pop()] + NormalAll(after)) == Flatten(rest) + [Pop()] + NormalAll(after);
      }
    } else {
      var rest;
      rest, after := Nest(p[1..], depth);
      program := Then(p[0], rest);
      assert Flatten(program) == [p[0]] + Flatten(rest);
      hide Flatten, Balanced;
      if depth > 0 {
        assert [p[0]] + (Flatten(rest) + [Pop()] + NormalAll(after)) == [p[0]] + Flatten(rest) + [Pop()] + NormalAll(after);
      }
    }
  }

  lemma {:induction false} NormalStep(p: seq<Instruction>)
    ensures p == [] ==> NormalAll(p) == []
    ensures p != [] ==> NormalAll(p) == [Normal(p[0])] + NormalAll(p[1..])
    ensures p != [] && !IsControl(p[0].opcode) ==> Normal(p[0]) == p[0]
    ensures p != [] && p[0].opcode.POP_CONDITION? ==> Normal(p[0]) == Pop()
    ensures p != [] && p[0].opcode.PUSH_CONDITION? && p[0].condition.Some? ==> Normal(p[0]) == Push(p[0].condition.value)
  {
  }

  lemma {:induction false} BalancedStep(i: Instruction, rest: seq<Instruction>, depth: nat)
    ensures !IsControl(i.opcode) ==> (Balanced([i] + rest, depth) <==> Balanced(rest, depth))
    ensures i == Pop() && depth > 0 ==> (Balanced([i] + rest, depth) <==> Balanced(rest, depth - 1))
    ensures i.opcode.PUSH_CONDITION? && i.condition.Some? ==> (Balanced([i] + rest, depth) <==> Balanced(rest, depth + 1))
  {
    assert ([i] + rest)[1..] == rest;
  }

  /** Nested programs flatten to balanced ones. */
  lemma {:induction false} FlattenIsBalanced(p: Program, tail: seq<Instruction>, depth: nat)
    requires NoControl(p)
    ensures Balanced(Flatten(p) + tail, depth) <==> Balanced(tail, depth)
  {
    hide Balanced;
    match p
    case Done =>
      assert [] + tail == tail;
    case Then(inst, rest) =>
      assert Flatten(p) == [inst] + Flatten(rest);
      hide Flatten;
      FlattenIsBalanced(rest, tail, depth);
      BalancedStep(inst, Flatten(rest) + tail, depth);
      Regroup(inst, Flatten(rest), inst, [], tail);
    case When(bit, body, after) =>
      assert Flatten(p) == [Push(bit)] + Flatten(body) + [Pop()] + Flatten(after);
      hide Flatten;
      var inner := [Pop()] + (Flatten(after) + tail);
      BalancedStep(Push(bit), Flatten(body) + inner, depth);
      FlattenIsBalanced(body, inner, depth + 1);
      BalancedStep(Pop(), Flatten(after) + tail, depth + 1);
      FlattenIsBalanced(after, tail, depth);
      Regroup(Push(bit), Flatten(body), Pop(), Flatten(after), tail);
  }

  /**
   Every balanced flat program means a nested one: under true conditions it runs
   as that program does and puts the stack back, under a false one it does nothing.
   */
  lemma {:induction false} BalancedMeansNested(p: seq<Instruction>) returns (program: Program)
    requires Balanced(p, 0)
    ensures NoControl(program)
    ensures forall m: Machine, stack: seq<bool>, trajectory: Trajectory | AllTrue(m.stack) && AllTrue(stack) ::
              Run(p, m.(stack := stack), trajectory) == WithStack(Execute(program, m, trajectory), stack)
    ensures forall m: Machine, trajectory: Trajectory | !AllTrue(m.stack) :: Run(p, m, trajectory) == Some(m)
  {
    var after;
    program, after := Nest(p, 0);
    hide Flatten, Execute, Run, NormalAll, AllTrue;
    forall m: Machine, stack: seq<bool>, trajectory: Trajectory | AllTrue(m.stack) && AllTrue(stack)
      ensures Run(p, m.(stack := stack), trajectory) == WithStack(Execute(program, m, trajectory), stack)
    {
      RunNormal(p, m.(stack := stack), trajectory);
      FlatRefinesStructured(program, m, stack, trajectory);
    }
    forall m: Machine, trajectory: Trajectory | !AllTrue(m.stack) ensures Run(p, m, trajectory) == Some(m) {
      RunNormal(p, m, trajectory);
      FalseBlockIsSkipped(program, m, trajectory);
    }
  }
}
