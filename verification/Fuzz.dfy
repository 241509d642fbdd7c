/**
 Fuzzing: one trajectory loads the registers, runs the circuit and checks the
 outputs, the ancillas and the sign; a campaign repeats that over cases and shots.
 */
module Fuzz {
  import opened Wrappers
  import opened Binary
  import opened Kickmix
  import opened Circuits
  import opened Simulator

  /** Register values in ascending register order. */
  datatype FuzzCase = FuzzCase(inputs: seq<nat>, outputs: seq<nat>)

  datatype FuzzFailure =
    | WrongOutput(register: nat, expected: nat, got: nat)
    | UnclearedAncilla(qubit: nat)
    | InvertedPhase

  /** `Panicked`, or the failure of the trajectory if it had one. */
  datatype Verdict = Panicked | Finished(failure: Option<FuzzFailure>)

  /** `values.get(i).copied().unwrap_or(0)` */
  function ValueAt(values: seq<nat>, i: nat): nat {
    if i < |values| then values[i] else 0
  }

  /** The registers can be addressed and hold at most 128 qubits each, the width of `u128`. */
  predicate Loadable(c: Circuit) {
    forall k | 0 <= k < |c.registers| ::
      MembersInBounds(c.registers[k], c.numQubits) && |c.registers[k].members| <= 128
  }

  function LoadAll(c: Circuit, inputs: seq<nat>, k: nat): (q: seq<bool>)
    requires Loadable(c) && k <= |c.registers|
    ensures |q| == c.numQubits
  {
    if k == 0 then seq(c.numQubits, i => false)
    else
      assert MembersInBounds(c.registers[k - 1], c.numQubits);
      var members := c.registers[k - 1].members;
      Loaded(LoadAll(c, inputs, k - 1), members, ValueAt(inputs, k - 1), |members|)
  }

  function Initial(c: Circuit, inputs: seq<nat>): Machine
    requires Loadable(c)
  {
    Machine(LoadAll(c, inputs, |c.registers|), seq(c.numBits, i => false), false, [], 0)
  }

  function Expected(c: Circuit, outputs: seq<nat>, k: nat): nat
    requires k < |c.registers|
  {
    ValueAt(outputs, k) % Pow2(|c.registers[k].members|)
  }

  function Got(c: Circuit, qubits: seq<bool>, k: nat): nat
    requires Loadable(c) && k < |c.registers| && |qubits| == c.numQubits
  {
    assert MembersInBounds(c.registers[k], c.numQubits);
    BitsValue(Gathered(qubits, c.registers[k].members))
  }

  /** The first register from `k` on that holds the wrong value. */
  function FirstWrong(c: Circuit, outputs: seq<nat>, qubits: seq<bool>, k: nat): Option<FuzzFailure>
    requires Loadable(c) && k <= |c.registers| && |qubits| == c.numQubits
    decreases |c.registers| - k
  {
    if k == |c.registers| then None
    else if Got(c, qubits, k) != Expected(c, outputs, k) then
      Some(WrongOutput(c.registers[k].id, Expected(c, outputs, k), Got(c, qubits, k)))
    else FirstWrong(c, outputs, qubits, k + 1)
  }

  predicate IsMember(c: Circuit, q: nat) {
    exists k | 0 <= k < |c.registers| :: q in c.registers[k].members
  }

  function FirstUncleared(c: Circuit, qubits: seq<bool>, q: nat): Option<FuzzFailure>
    requires q <= |qubits|
    decreases |qubits| - q
  {
    if q == |qubits| then None
    else if qubits[q] && !IsMember(c, q) then Some(UnclearedAncilla(q))
    else FirstUncleared(c, qubits, q + 1)
  }

  /** The checks in the order they are made. */
  function Judge(c: Circuit, outputs: seq<nat>, m: Machine): Option<FuzzFailure>
    requires Loadable(c) && |m.qubits| == c.numQubits
  {
    var wrong := FirstWrong(c, outputs, m.qubits, 0);
    if wrong.Some? then wrong
    else
      var uncleared := FirstUncleared(c, m.qubits, 0);
      if uncleared.Some? then uncleared
      else if m.phase then Some(InvertedPhase) else None
  }

  function CheckCase(c: Circuit, case_: FuzzCase, trajectory: Trajectory): Verdict
    requires Loadable(c)
  {
    var start := Initial(c, case_.inputs);
    var end := Run(c.instructions, start, trajectory);
    RunKeepsShape(c.instructions, start, trajectory);
    if end.None? then Panicked else Finished(Judge(c, case_.outputs, end.value))
  }

  // ---------------------------------------------------------------- what a pass means

  lemma {:induction false} NoneWrong(c: Circuit, outputs: seq<nat>, qubits: seq<bool>, k: nat)
    requires Loadable(c) && k <= |c.registers| && |qubits| == c.numQubits
    ensures FirstWrong(c, outputs, qubits, k).None?
       <==> forall i | k <= i < |c.registers| :: Got(c, qubits, i) == Expected(c, outputs, i)
    decreases |c.registers| - k
  {
    hide Got, Expected;
    if k < |c.registers| {
      NoneWrong(c, outputs, qubits, k + 1);
    }
  }

  lemma {:induction false} NoneUncleared(c: Circuit, qubits: seq<bool>, q: nat)
    requires q <= |qubits|
    ensures FirstUncleared(c, qubits, q).None? <==> forall i | q <= i < |qubits| && qubits[i] :: IsMember(c, i)
    decreases |qubits| - q
  {
    hide IsMember;
    if q < |qubits| {
      NoneUncleared(c, qubits, q + 1);
    }
  }

  /**
   A case passes exactly when the run reaches its end, every register holds its
   expected value reduced to its width, every other qubit is off, and the sign
   is positive.
   */
  lemma {:induction false} PassMeans(c: Circuit, case_: FuzzCase, trajectory: Trajectory)
    requires Loadable(c)
    ensures CheckCase(c, case_, trajectory) == Finished(None) <==>
      var end := Run(c.instructions, Initial(c, case_.inputs), trajectory);
      && end.Some? && |end.value.qubits| == c.numQubits
      && (forall k | 0 <= k < |c.registers| :: Got(c, end.value.qubits, k) == Expected(c, case_.outputs, k))
      && (forall q | 0 <= q < c.numQubits && end.value.qubits[q] :: IsMember(c, q))
      && !end.value.phase
  {
    hide Initial, Got, Expected, IsMember;
    var start := Initial(c, case_.inputs);
    InitialShape(c, case_.inputs);
    RunKeepsShape(c.instructions, start, trajectory);
    var end := Run(c.instructions, start, trajectory);
    if end.Some? {
      NoneWrong(c, case_.outputs, end.value.qubits, 0);
      NoneUncleared(c, end.value.qubits, 0);
    }
  }

  lemma {:induction false} InitialShape(c: Circuit, inputs: seq<nat>)
    requires Loadable(c)
    ensures |Initial(c, inputs).qubits| == c.numQubits
  {
  }

  // ---------------------------------------------------------------- the implementation

  method LoadCase(c: Circuit, inputs: seq<nat>, state: SimState)
    requires Loadable(c) && state.qubits == seq(c.numQubits, i => false)
    modifies state`qubits
    ensures state.qubits == LoadAll(c, inputs, |c.registers|)
  {
    for k := 0 to |c.registers|
      invariant state.qubits == LoadAll(c, inputs, k)
    {
      assert MembersInBounds(c.registers[k], c.numQubits);
      state.LoadRegister(c.registers[k].members, ValueAt(inputs, k));
    }
  }

  method FindWrong(c: Circuit, outputs: seq<nat>, state: SimState) returns (r: Option<FuzzFailure>)
    requires Loadable(c) && |state.qubits| == c.numQubits
    ensures r == FirstWrong(c, outputs, state.qubits, 0)
  {
    for k := 0 to |c.registers|
      invariant FirstWrong(c, outputs, state.qubits, 0) == FirstWrong(c, outputs, state.qubits, k)
    {
      var width := |c.registers[k].members|;
      MaskIsMod(ValueAt(outputs, k), width);
      var expected := BitAnd(ValueAt(outputs, k), Pow2(width) - 1);
      assert MembersInBounds(c.registers[k], c.numQubits);
      var got := state.ReadRegister(c.registers[k].members);
      if got != expected {
        return Some(WrongOutput(c.registers[k].id, expected, got));
      }
    }
    return None;
  }

  /** `register_qubits` */
  method RegisterQubits(c: Circuit) returns (isMember: seq<bool>)
    requires Loadable(c)
    ensures |isMember| == c.numQubits && forall q | 0 <= q < c.numQubits :: isMember[q] == IsMember(c, q)
  {
    isMember := seq(c.numQubits, i => false);
    for k := 0 to |c.registers|
      invariant |isMember| == c.numQubits
      invariant forall q | 0 <= q < c.numQubits :: isMember[q] == exists i | 0 <= i < k :: q in c.registers[i].members
    {
      isMember := MarkMembers(c.registers[k], isMember);
    }
  }

  method MarkMembers(e: RegisterEntry, isMember: seq<bool>) returns (marked: seq<bool>)
    ensures |marked| == |isMember|
    ensures forall q | 0 <= q < |isMember| :: marked[q] == (isMember[q] || q in e.members)
  {
    marked := isMember;
    for j := 0 to |e.members|
      invariant |marked| == |isMember|
      invariant forall q | 0 <= q < |isMember| :: marked[q] == (isMember[q] || q in e.members[..j])
    {
      assert e.members[..j + 1] == e.members[..j] + [e.members[j]];
      if e.members[j] < |marked| {
        marked := marked[e.members[j] := true];
      }
    }
    assert e.members[..|e.members|] == e.members;
  }

  method FindUncleared(c: Circuit, state: SimState) returns (r: Option<FuzzFailure>)
    requires Loadable(c) && |state.qubits| == c.numQubits
    ensures r == FirstUncleared(c, state.qubits, 0)
  {
    hide IsMember;
    var isMember := RegisterQubits(c);
    for q := 0 to |state.qubits|
      invariant FirstUncleared(c, state.qubits, 0) == FirstUncleared(c, state.qubits, q)
    {
      if state.qubits[q] && !isMember[q] {
        return Some(UnclearedAncilla(q));
      }
    }
    return None;
  }

  method CheckCaseInPlace(c: Circuit, case_: FuzzCase, measure: MeasureSource) returns (v: Verdict)
    requires Loadable(c) && measure.drawn == 0
    modifies measure
    ensures v == CheckCase(c, case_, measure.trajectory)
  {
    hide LoadAll, FirstWrong, FirstUncleared, Run;
    var state := new SimState(c.numQubits, c.numBits);
    LoadCase(c, case_.inputs, state);
    ghost var start := state.View(measure);
    assert start == Initial(c, case_.inputs);
    RunKeepsShape(c.instructions, start, measure.trajectory);
    var ok := state.RunInPlace(c.instructions, measure);
    if !ok {
      return Panicked;
    }
    var wrong := FindWrong(c, case_.outputs, state);
    if wrong.Some? {
      return Finished(wrong);
    }
    var uncleared := FindUncleared(c, state);
    if uncleared.Some? {
      return Finished(uncleared);
    }
    return Finished(if state.phase then Some(InvertedPhase) else None);
  }

  // ---------------------------------------------------------------- many cases, many shots

  datatype FuzzOutcome = FuzzPanicked | Passed(shots: nat) | FailedAt(caseIndex: nat, failure: FuzzFailure)

  /** The measurement trajectory of each shot of each case; the code seeds each shot from one generator. */
  type ShotTrajectories = (nat, nat) -> Trajectory

  /** The outcome from shot `s` of case `i` on, with `total` shots done. */
  function FuzzFrom(
      c: Circuit, cases: seq<FuzzCase>, shots: nat, t: ShotTrajectories, i: nat, s: nat, total: nat): FuzzOutcome
    requires Loadable(c) && i <= |cases| && s <= shots
    decreases |cases| - i, shots - s
  {
    if i == |cases| then Passed(total)
    else if s == shots then FuzzFrom(c, cases, shots, t, i + 1, 0, total)
    else match CheckCase(c, cases[i], t(i, s))
      case Panicked => FuzzPanicked
      case Finished(Some(failure)) => FailedAt(i, failure)
      case Finished(None) => FuzzFrom(c, cases, shots, t, i, s + 1, total + 1)
  }

  /** One shot; `Some` is an early return. */
  method OneShot(c: Circuit, cases: seq<FuzzCase>, shots: nat, t: ShotTrajectories, i: nat, s: nat, total: nat)
    returns (early: Option<FuzzOutcome>)
    requires Loadable(c) && i < |cases| && s < shots
    ensures FuzzFrom(c, cases, shots, t, i, s, total)
         == if early.Some? then early.value else FuzzFrom(c, cases, shots, t, i, s + 1, total + 1)
  {
    hide CheckCase, Loadable;
    var measure := new MeasureSource(t(i, s));
    var v := CheckCaseInPlace(c, cases[i], measure);
    match v
    case Panicked => early := Some(FuzzPanicked);
    case Finished(Some(failure)) => early := Some(FailedAt(i, failure));
    case Finished(None) => early := None;
  }

  method FuzzAll(c: Circuit, cases: seq<FuzzCase>, shots: nat, t: ShotTrajectories) returns (r: FuzzOutcome)
    requires Loadable(c)
    ensures r == FuzzFrom(c, cases, shots, t, 0, 0, 0)
  {
    hide Loadable;
    var total := 0;
    for i := 0 to |cases|
      invariant FuzzFrom(c, cases, shots, t, 0, 0, 0) == FuzzFrom(c, cases, shots, t, i, 0, total)
    {
      for s := 0 to shots
        invariant FuzzFrom(c, cases, shots, t, 0, 0, 0) == FuzzFrom(c, cases, shots, t, i, s, total)
      {
        var early := OneShot(c, cases, shots, t, i, s, total);
        if early.Some? {
          return early.value;
        }
        total := total + 1;
      }
    }
    return Passed(total);
  }

  predicate ShotPasses(c: Circuit, case_: FuzzCase, trajectory: Trajectory)
    requires Loadable(c)
  {
    CheckCase(c, case_, trajectory) == Finished(None)
  }

  /** Every shot from shot `s` of case `i` on passes. */
  predicate ShotsPass(c: Circuit, cases: seq<FuzzCase>, shots: nat, t: ShotTrajectories, i: nat, s: nat)
    requires Loadable(c)
  {
    forall j, u | i <= j < |cases| && 0 <= u < shots && (j == i ==> s <= u) :: ShotPasses(c, cases[j], t(j, u))
  }

  /** The shots left from shot `s` of case `i` on. */
  function ShotsLeft(cases: nat, shots: nat, i: nat, s: nat): int {
    (cases - i) * shots - s
  }

  lemma {:induction false} ShotsStep(cases: nat, shots: nat, i: nat, s: nat)
    ensures ShotsLeft(cases, shots, i, s) == 1 + ShotsLeft(cases, shots, i, s + 1)
    ensures ShotsLeft(cases, shots, i, shots) == ShotsLeft(cases, shots, i + 1, 0)
    ensures ShotsLeft(cases, shots, cases, 0) == 0
  {
    assert (cases - i) * shots == shots + (cases - (i + 1)) * shots;
  }

  lemma {:induction false} ShotsPassStep(
      c: Circuit, cases: seq<FuzzCase>, shots: nat, t: ShotTrajectories, i: nat, s: nat)
    requires Loadable(c) && i < |cases| && s < shots
    ensures ShotsPass(c, cases, shots, t, i, s)
       <==> CheckCase(c, cases[i], t(i, s)) == Finished(None) && ShotsPass(c, cases, shots, t, i, s + 1)
  {
    hide CheckCase, Loadable;
    assert ShotPasses(c, cases[i], t(i, s)) <==> CheckCase(c, cases[i], t(i, s)) == Finished(None);
  }

  lemma {:induction false} ShotsPassNext(c: Circuit, cases: seq<FuzzCase>, shots: nat, t: ShotTrajectories, i: nat)
    requires Loadable(c) && i < |cases|
    ensures ShotsPass(c, cases, shots, t, i, shots) <==> ShotsPass(c, cases, shots, t, i + 1, 0)
  {
    hide ShotPasses, Loadable;
  }

  lemma {:induction false} NoShots(c: Circuit, cases: seq<FuzzCase>, shots: nat, t: ShotTrajectories)
    requires Loadable(c)
    ensures ShotsPass(c, cases, shots, t, |cases|, 0)
  {
  }

  /**
   Fuzzing succeeds exactly when every shot of every case passes, and then it
   has counted them all.
   */
  lemma {:induction false} FuzzMeans(
      c: Circuit, cases: seq<FuzzCase>, shots: nat, t: ShotTrajectories, i: nat, s: nat, total: nat)
    requires Loadable(c) && i <= |cases| && s <= shots && (i == |cases| ==> s == 0)
    ensures var r := FuzzFrom(c, cases, shots, t, i, s, total);
      && (r.Passed? <==> ShotsPass(c, cases, shots, t, i, s))
      && (r.Passed? ==> r.shots == total + ShotsLeft(|cases|, shots, i, s))
    decreases |cases| - i, shots - s
  {
    hide CheckCase, Loadable, ShotsLeft, ShotsPass;
    ShotsStep(|cases|, shots, i, s);
    if i == |cases| {
      NoShots(c, cases, shots, t);
    } else {
      if s == shots {
        ShotsPassNext(c, cases, shots, t, i);
        FuzzMeans(c, cases, shots, t, i + 1, 0, total);
      } else {
        FuzzMeans(c, cases, shots, t, i, s + 1, total + 1);
        ShotsPassStep(c, cases, shots, t, i, s);
      }
    }
  }

  // ---------------------------------------------------------------- what a failure reports

  /** A wrong output is that of the first wrong register; an uncleared ancilla comes next, the sign last. */
  lemma {:induction false} FirstWrongRegister(c: Circuit, outputs: seq<nat>, qubits: seq<bool>, k: nat)
    requires Loadable(c) && k <= |c.registers| && |qubits| == c.numQubits
    requires FirstWrong(c, outputs, qubits, k).Some?
    ensures exists i | k <= i < |c.registers| ::
      && FirstWrong(c, outputs, qubits, k) == Some(WrongOutput(c.registers[i].id, Expected(c, outputs, i), Got(c, qubits, i)))
      && Got(c, qubits, i) != Expected(c, outputs, i)
      && forall j | k <= j < i :: Got(c, qubits, j) == Expected(c, outputs, j)
    decreases |c.registers| - k
  {
    hide Got, Expected;
    if k < |c.registers| && Got(c, qubits, k) == Expected(c, outputs, k) {
      FirstWrongRegister(c, outputs, qubits, k + 1);
    }
  }

  lemma {:induction false} FirstUnclearedQubit(c: Circuit, qubits: seq<bool>, q: nat)
    requires q <= |qubits| && FirstUncleared(c, qubits, q).Some?
    ensures FirstUncleared(c, qubits, q).value.UnclearedAncilla?
    ensures var a := FirstUncleared(c, qubits, q).value.qubit;
      && q <= a < |qubits| && qubits[a] && !IsMember(c, a)
      && forall j | q <= j < a && qubits[j] :: IsMember(c, j)
    decreases |qubits| - q
  {
    hide IsMember;
    if !(qubits[q] && !IsMember(c, q)) {
      FirstUnclearedQubit(c, qubits, q + 1);
    }
  }

  /** A campaign stops at the first shot, in case order and then shot order, that does not pass. */
  lemma {:induction false} FirstFailingShot(
    c: Circuit, cases: seq<FuzzCase>, shots: nat, t: ShotTrajectories, i: nat, s: nat, total: nat)
    requires Loadable(c) && i <= |cases| && s <= shots
    requires FuzzFrom(c, cases, shots, t, i, s, total).FailedAt?
    ensures var r := FuzzFrom(c, cases, shots, t, i, s, total);
      i <= r.caseIndex < |cases| && exists u | 0 <= u < shots ::
        && CheckCase(c, cases[r.caseIndex], t(r.caseIndex, u)) == Finished(Some(r.failure))
        && forall j, w | i <= j <= r.caseIndex && 0 <= w < shots && (j == i ==> s <= w) && (j == r.caseIndex ==> w < u) ::
             ShotPasses(c, cases[j], t(j, w))
    decreases |cases| - i, shots - s
  {
    hide CheckCase, Loadable;
    if s == shots {
      FirstFailingShot(c, cases, shots, t, i + 1, 0, total);
    } else if ShotPasses(c, cases[i], t(i, s)) {
      FirstFailingShot(c, cases, shots, t, i, s + 1, total + 1);
    } else {
      assert CheckCase(c, cases[i], t(i, s)) == Finished(Some(FuzzFrom(c, cases, shots, t, i, s, total).failure));
    }
  }
}
