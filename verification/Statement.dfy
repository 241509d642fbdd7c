/**
 The proof statement: derive the cases from the circuit hash, check each one
 against `((x + K*y) mod 2^width, y)`, and certify the resource counts.
 */
module Statement {
  import opened Wrappers
  import opened Binary
  import opened Kickmix
  import opened Circuits
  import opened Simulator
  import opened Fuzz
  import FiatShamir

  // ---------------------------------------------------------------- resources

  const SENTINEL: nat := 42

  /** Counts committed by the prover, or bounds demanded by the verifier. */
  datatype Resources = Resources(samples: nat, qubits: nat, nonClifford: nat, instructions: nat)

  datatype Violation =
    | TooFewSamples(committed: nat, demanded: nat)
    | QubitCapExceeded(committed: nat, demanded: nat)
    | NonCliffordCapExceeded(committed: nat, demanded: nat)
    | InstructionCapExceeded(committed: nat, demanded: nat)
    | BadSentinel(committed: nat)

  function CountNonClifford(p: seq<Instruction>): nat {
    if p == [] then 0
    else (if p[0].opcode.CCX? || p[0].opcode.CCZ? then 1 else 0) + CountNonClifford(p[1..])
  }

  function CountResources(c: Circuit, samples: nat): Resources {
    Resources(samples, c.numQubits, CountNonClifford(c.instructions), |c.instructions|)
  }

  function PublicOutputs(counts: Resources): seq<nat> {
    [counts.samples, counts.qubits, counts.nonClifford, counts.instructions, SENTINEL]
  }

  function Certify(counts: Resources, sentinel: nat, demanded: Resources): seq<Violation> {
    (if counts.samples < demanded.samples then [TooFewSamples(counts.samples, demanded.samples)] else [])
    + (if counts.qubits > demanded.qubits then [QubitCapExceeded(counts.qubits, demanded.qubits)] else [])
    + (if counts.nonClifford > demanded.nonClifford
       then [NonCliffordCapExceeded(counts.nonClifford, demanded.nonClifford)] else [])
    + (if counts.instructions > demanded.instructions
       then [InstructionCapExceeded(counts.instructions, demanded.instructions)] else [])
    + (if sentinel != SENTINEL then [BadSentinel(sentinel)] else [])
  }

  /** At least the demanded samples, at most the demanded resources. */
  predicate Within(counts: Resources, demanded: Resources) {
    && counts.samples >= demanded.samples && counts.qubits <= demanded.qubits
    && counts.nonClifford <= demanded.nonClifford && counts.instructions <= demanded.instructions
  }

  // ---------------------------------------------------------------- 128-bit specification arithmetic

  const U128: nat := 0x1_0000_0000_0000_0000_0000_0000_0000_0000

  function WrappingAdd(a: nat, b: nat): nat {
    (a + b) % U128
  }

  function WrappingMul(a: nat, b: nat): nat {
    (a * b) % U128
  }

  function WrappingSub(a: int, b: int): nat {
    (a - b) % U128
  }

  function Modulus(width: nat): nat {
    if width >= 128 then 0 else Pow2(width)
  }

  /** The expected accumulator, as the 128-bit code computes it. */
  function SpecSum(x: nat, y: nat, repetitions: nat, width: nat): nat {
    BitAnd(WrappingAdd(x, WrappingMul(repetitions, y)), WrappingSub(Modulus(width), 1))
  }

  lemma {:induction false} Pow2Is128()
    ensures Pow2(128) == U128
  {
    assert Pow2(8) == 0x100;
    Pow2Add(8, 8);
    assert Pow2(16) == 0x1_0000;
    Pow2Add(16, 16);
    assert Pow2(32) == 0x1_0000_0000;
    Pow2Add(32, 32);
    assert Pow2(64) == 0x1_0000_0000_0000_0000;
    Pow2Add(64, 64);
  }

  lemma {:induction false} ModMod(v: nat, a: nat, b: nat)
    requires a > 0 && b > 0
    ensures a * b > 0 && (v % (a * b)) % a == v % a
  {
    var m := a * b;
    var q, r := v / m, v % m;
    var d, e := r / a, r % a;
    assert v == m * q + r && r == a * d + e;
    assert m * q == a * (b * q);
    assert v == e + a * (b * q + d);
    DivModUnique(v, a, b * q + d, e);
  }

  lemma {:induction false} WrapThenReduce(v: nat, width: nat)
    requires width <= 128
    ensures (v % U128) % Pow2(width) == v % Pow2(width)
  {
    hide Pow2;
    Pow2Is128();
    Pow2Add(width, 128 - width);
    ModMod(v, Pow2(width), Pow2(128 - width));
  }

  lemma {:induction false} MaskValue(width: nat)
    requires 1 <= width <= 128
    ensures WrappingSub(Modulus(width), 1) == Pow2(width) - 1
  {
    Pow2Is128();
    Pow2Monotone(width, 128);
    if width < 128 {
      assert 0 <= Pow2(width) - 1 < U128;
    }
  }

  /** Wrapping at 128 bits and masking gives the sum modulo `2^width`, at width 128 too. */
  lemma {:induction false} SpecSumIsModular(x: nat, y: nat, repetitions: nat, width: nat)
    requires 1 <= width <= 128
    ensures SpecSum(x, y, repetitions, width) == (x + repetitions * y) % Pow2(width)
  {
    hide BitAnd, Pow2, WrappingSub;
    MaskValue(width);
    var product := repetitions * y;
    MaskIsMod(WrappingAdd(x, WrappingMul(repetitions, y)), width);
    WrapThenReduce(x + product % U128, width);
    WrapThenReduce(product, width);
    AddReduced(x, product % U128, product, Pow2(width));
  }

  lemma {:induction false} AddMultiple(v: nat, p: nat, k: nat)
    requires p > 0
    ensures (v + p * k) % p == v % p
  {
    assert p * (v / p + k) == p * (v / p) + p * k;
    DivModUnique(v + p * k, p, v / p + k, v % p);
  }

  lemma {:induction false} AddReduced(x: nat, a: nat, b: nat, p: nat)
    requires p > 0 && a % p == b % p
    ensures (x + a) % p == (x + b) % p
  {
    var r := a % p;
    AddMultiple(x + r, p, a / p);
    AddMultiple(x + r, p, b / p);
    assert x + a == x + r + p * (a / p) && x + b == x + r + p * (b / p);
  }

  // ---------------------------------------------------------------- the statement

  datatype Params = Params(repetitions: nat, width: nat, samples: nat, demanded: Resources)

  datatype StatementError =
    | FuzzFailed(caseIndex: nat, failure: FuzzFailure)
    | ResourceViolations(violations: seq<Violation>)

  /** `Aborted` is a panic: a width or sample count the derivation rejects, or a circuit the simulator rejects. */
  datatype Outcome = Aborted | Returned(result: Result<seq<nat>, StatementError>)

  /** The measurement trajectory of each case; the code seeds one from the circuit hash and the case index. */
  type CaseTrajectories = nat -> Trajectory

  function CaseOf(pair: (nat, nat), p: Params): FuzzCase {
    FuzzCase([pair.0, pair.1], [SpecSum(pair.0, pair.1, p.repetitions, p.width), pair.1])
  }

  /** The outcome of the cases from `i` on, or the final certification. */
  function CheckFrom(c: Circuit, p: Params, cases: seq<(nat, nat)>, t: CaseTrajectories, i: nat): Outcome
    requires Loadable(c) && i <= |cases|
    decreases |cases| - i
  {
    if i == |cases| then
      var outputs := PublicOutputs(CountResources(c, p.samples));
      var violations := Certify(CountResources(c, p.samples), outputs[4], p.demanded);
      Returned(if violations != [] then Err(ResourceViolations(violations)) else Ok(outputs))
    else match CheckCase(c, CaseOf(cases[i], p), t(i))
      case Panicked => Aborted
      case Finished(Some(failure)) => Returned(Err(FuzzFailed(i, failure)))
      case Finished(None) => CheckFrom(c, p, cases, t, i + 1)
  }

  function Run(c: Circuit, hash: seq<Byte>, p: Params, t: CaseTrajectories): Outcome
    requires Loadable(c)
  {
    if !(1 <= p.width <= 128) || p.samples == 0 then Aborted
    else CheckFrom(c, p, FiatShamir.Cases(hash, p.width, p.samples), t, 0)
  }

  /** One derived case; `Some` is an early return. */
  method CheckOne(
      c: Circuit, p: Params, cases: seq<(nat, nat)>, t: CaseTrajectories,
      i: nat) returns (early: Option<Outcome>)
    requires Loadable(c) && i < |cases|
    ensures CheckFrom(c, p, cases, t, i) == if early.Some? then early.value else CheckFrom(c, p, cases, t, i + 1)
  {
    hide CheckCase, CaseOf, CountResources, Loadable, Certify;
    var measure := new MeasureSource(t(i));
    var v := CheckCaseInPlace(c, CaseOf(cases[i], p), measure);
    match v
    case Panicked => early := Some(Aborted);
    case Finished(Some(failure)) => early := Some(Returned(Err(FuzzFailed(i, failure))));
    case Finished(None) => early := None;
  }

  method CheckAll(c: Circuit, p: Params, cases: seq<(nat, nat)>, t: CaseTrajectories) returns (early: Option<Outcome>)
    requires Loadable(c)
    ensures CheckFrom(c, p, cases, t, 0) == if early.Some? then early.value else CheckFrom(c, p, cases, t, |cases|)
  {
    hide *;
    early := None;
    for i := 0 to |cases|
      invariant early.None? && CheckFrom(c, p, cases, t, 0) == CheckFrom(c, p, cases, t, i)
    {
      early := CheckOne(c, p, cases, t, i);
      if early.Some? {
        return;
      }
    }
  }

  method RunStatement(c: Circuit, hash: seq<Byte>, p: Params, t: CaseTrajectories) returns (r: Outcome)
    requires Loadable(c)
    ensures r == Run(c, hash, p, t)
  {
    hide CheckCase, CaseOf, CountResources, Loadable, Certify, FiatShamir.Cases;
    var cases := FiatShamir.DeriveCasesRust(hash, p.width, p.samples);
    if cases.None? {
      return Aborted;
    }
    var early := CheckAll(c, p, cases.value, t);
    if early.Some? {
      return early.value;
    }
    var counts := CountResources(c, p.samples);
    var outputs := PublicOutputs(counts);
    var violations := Certify(counts, outputs[4], p.demanded);
    if violations != [] {
      return Returned(Err(ResourceViolations(violations)));
    }
    return Returned(Ok(outputs));
  }

  // ---------------------------------------------------------------- what acceptance means

  lemma {:induction false} CertifyMeans(counts: Resources, demanded: Resources)
    ensures Certify(counts, SENTINEL, demanded) == [] <==> Within(counts, demanded)
  {
  }

  ghost predicate AllPass(c: Circuit, p: Params, cases: seq<(nat, nat)>, t: CaseTrajectories, i: nat)
    requires Loadable(c)
  {
    forall k | i <= k < |cases| :: CheckCase(c, CaseOf(cases[k], p), t(k)) == Finished(None)
  }

  lemma {:induction false} CheckFromMeans(c: Circuit, p: Params, cases: seq<(nat, nat)>, t: CaseTrajectories, i: nat)
    requires Loadable(c) && i <= |cases|
    ensures
      var counts := CountResources(c, p.samples);
      && (CheckFrom(c, p, cases, t, i) == Returned(Ok(PublicOutputs(counts)))
          <==> AllPass(c, p, cases, t, i) && Within(counts, p.demanded))
      && (forall out :: CheckFrom(c, p, cases, t, i) == Returned(Ok(out)) ==> out == PublicOutputs(counts))
    decreases |cases| - i
  {
    hide CheckCase, CountResources, Within, Certify, CaseOf;
    if i == |cases| {
      CertifyMeans(CountResources(c, p.samples), p.demanded);
    } else {
      CheckFromMeans(c, p, cases, t, i + 1);
    }
  }

  /**
   The statement returns public outputs exactly when every case derived from
   the hash passes and the counts are within the demanded bounds; the outputs
   are then the counts and the sentinel.
   */
  lemma {:induction false} StatementAccepts(c: Circuit, hash: seq<Byte>, p: Params, t: CaseTrajectories)
    requires Loadable(c) && 1 <= p.width <= 128 && p.samples > 0
    ensures Run(c, hash, p, t) == Returned(Ok(PublicOutputs(CountResources(c, p.samples)))) <==>
      && AllPass(c, p, FiatShamir.Cases(hash, p.width, p.samples), t, 0)
      && Within(CountResources(c, p.samples), p.demanded)
  {
    hide CheckFrom, AllPass, Within, CountResources;
    CheckFromMeans(c, p, FiatShamir.Cases(hash, p.width, p.samples), t, 0);
  }

  // ---------------------------------------------------------------- what a rejection reports

  function NonClifford(p: seq<Instruction>): set<nat> {
    set i: nat | i < |p| && (p[i].opcode == CCX || p[i].opcode == CCZ)
  }

  /** The non-Clifford count is the number of positions that hold a CCX or a CCZ. */
  lemma {:induction false} CountIsCardinality(p: seq<Instruction>)
    ensures CountNonClifford(p) == |NonClifford(p)|
  {
    if p == [] {
      assert NonClifford(p) == {};
    } else {
      CountIsCardinality(p[1..]);
      ShiftKeepsSize(NonClifford(p[1..]));
      NonCliffordSplit(p);
      hide NonClifford, Shifted;
      assert 0 !in Shifted(NonClifford(p[1..])) by { ShiftedPositive(NonClifford(p[1..])); }
    }
  }

  lemma {:induction false} ShiftedPositive(s: set<nat>)
    ensures 0 !in Shifted(s)
  {
  }

  lemma {:induction false} NonCliffordSplit(p: seq<Instruction>)
    requires p != []
    ensures NonClifford(p)
         == Shifted(NonClifford(p[1..])) + (if p[0].opcode == CCX || p[0].opcode == CCZ then {0} else {})
  {
    var shifted := Shifted(NonClifford(p[1..]));
    forall i | i in NonClifford(p) && i > 0 ensures i in shifted {
      assert p[1..][i - 1] == p[i] && i - 1 in NonClifford(p[1..]);
    }
  }

  function Shifted(s: set<nat>): set<nat> {
    set i | i in s :: i + 1
  }

  lemma {:induction false} ShiftKeepsSize(s: set<nat>)
    ensures |Shifted(s)| == |s|
    decreases |s|
  {
    if s == {} {
      assert Shifted(s) == {};
    } else {
      var x :| x in s;
      var rest := s - {x};
      ShiftKeepsSize(rest);
      forall e | e in Shifted(s) ensures e in Shifted(rest) + {x + 1} {
        assert e - 1 in s;
        assert e - 1 != x ==> e - 1 in rest;
      }
      assert x + 1 !in Shifted(rest);
      assert Shifted(s) == Shifted(rest) + {x + 1};
    }
  }

  /** Each violation is listed exactly when its bound is broken, with the committed and the demanded number. */
  lemma {:induction false} ViolationsAreListed(counts: Resources, sentinel: nat, demanded: Resources, v: Violation)
    ensures v in Certify(counts, sentinel, demanded) <==>
      match v
      case TooFewSamples(a, b) => a == counts.samples && b == demanded.samples && a < b
      case QubitCapExceeded(a, b) => a == counts.qubits && b == demanded.qubits && a > b
      case NonCliffordCapExceeded(a, b) => a == counts.nonClifford && b == demanded.nonClifford && a > b
      case InstructionCapExceeded(a, b) => a == counts.instructions && b == demanded.instructions && a > b
      case BadSentinel(a) => a == sentinel && a != 42
  {
  }

  /** A failed case is reported by the index of the first one, and a panic only after passing cases. */
  lemma {:induction false} FirstFailure(c: Circuit, p: Params, cases: seq<(nat, nat)>, t: CaseTrajectories, i: nat)
    requires Loadable(c) && i <= |cases|
    ensures var out := CheckFrom(c, p, cases, t, i);
      && (out.Returned? && out.result.Err? && out.result.error.FuzzFailed? ==>
           var k := out.result.error.caseIndex;
           && i <= k < |cases|
           && CheckCase(c, CaseOf(cases[k], p), t(k)) == Finished(Some(out.result.error.failure))
           && forall j | i <= j < k :: CheckCase(c, CaseOf(cases[j], p), t(j)) == Finished(None))
      && (out.Returned? && out.result.Err? && out.result.error.ResourceViolations? ==>
           AllPass(c, p, cases, t, i) && !Within(CountResources(c, p.samples), p.demanded))
      && (out.Aborted? ==> exists k | i <= k < |cases| :: CheckCase(c, CaseOf(cases[k], p), t(k)) == Panicked)
    decreases |cases| - i
  {
    hide CheckCase, CountResources, Within, Certify, CaseOf;
    if i == |cases| {
      CertifyMeans(CountResources(c, p.samples), p.demanded);
    } else {
      FirstFailure(c, p, cases, t, i + 1);
    }
  }
}
