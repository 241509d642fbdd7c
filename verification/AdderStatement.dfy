/** The whole statement on the repeated adder: parsing, simulation, specification arithmetic and resources. */
module AdderStatement {
  import opened Wrappers
  import opened Binary
  import opened Kickmix
  import opened Circuits
  import opened Classical
  import opened Simulator
  import opened Fuzz
  import Adder
  import FiatShamir
  import S = Statement

  // ---------------------------------------------------------------- the circuit file

  /** Line `k` of the register declarations: r0 with qubits `0 .. n-1`, then r1 with qubits `n .. 2n-1`. */
  function Declaration(n: nat, k: nat): Instruction {
    if k == 0 then Instruction(REGISTER, [Register(0)], None)
    else if k <= n then Instruction(APPEND_TO_REGISTER, [Qubit(k - 1), Register(0)], None)
    else if k == n + 1 then Instruction(REGISTER, [Register(1)], None)
    else Instruction(APPEND_TO_REGISTER, [Qubit(k - 2), Register(1)], None)
  }

  function Declarations(n: nat): (p: seq<Instruction>)
    ensures |p| == 2 * n + 2
  {
    seq(2 * n + 2, k requires 0 <= k => Declaration(n, k))
  }

  /** The registers declared once, then `k` copies of the adder. */
  function AdderFile(n: nat, k: nat): seq<Instruction>
    requires n >= 3
  {
    Declarations(n) + EncodeAll(Repeat(Adder.AdderGates(n), k))
  }

  function Range(from: nat, len: nat): (s: seq<nat>)
    ensures |s| == len && forall i | 0 <= i < len :: s[i] == from + i
  {
    seq(len, i => from + i)
  }

  /** The register table after the first `k` declaration lines. */
  function TableAfter(n: nat, k: nat): seq<RegisterEntry> {
    if k == 0 then []
    else if k <= n + 1 then [RegisterEntry(0, Range(0, k - 1))]
    else [RegisterEntry(0, Range(0, n)), RegisterEntry(1, Range(n, k - n - 2))]
  }

  function QubitsAfter(n: nat, k: nat): nat {
    if k == 0 then 0 else if k <= n + 1 then k - 1 else k - 2
  }

  lemma {:induction false} ExtendLast(id: nat, members: seq<nat>, q: nat)
    ensures Extend([RegisterEntry(id, members)], id, [q]) == [RegisterEntry(id, members + [q])]
  {
    assert [RegisterEntry(id, members)][1..] == [];
  }

  lemma {:induction false} OneDeclaration(n: nat, k: nat, c: Circuit)
    requires k < 2 * n + 2
    requires c.registers == TableAfter(n, k) && c.numQubits == QubitsAfter(n, k) && c.numBits == 0
    ensures AddLine(c, Declaration(n, k)).Some?
    ensures var d := AddLine(c, Declaration(n, k)).value;
      d.registers == TableAfter(n, k + 1) && d.numQubits == QubitsAfter(n, k + 1) && d.numBits == 0
  {
    var t := Declaration(n, k).targets;
    assert |t| == 2 ==> t[1..] == [t[1]] && t[1..][1..] == [];
    assert |t| == 1 ==> t[1..] == [];
    if k == 0 {
      assert Range(0, 0) == [];
    } else if k <= n {
      assert Range(0, k - 1) + [k - 1] == Range(0, k);
    } else if k == n + 1 {
      assert Range(n, 0) == [];
      assert c.registers[1..] == [];
      assert Extend([], 1, []) == [RegisterEntry(1, [])];
    } else {
      assert Range(n, k - n - 2) + [k - 2] == Range(n, k - n - 1);
      assert c.registers[1..] == [RegisterEntry(1, Range(n, k - n - 2))];
      ExtendLast(1, Range(n, k - n - 2), k - 2);
    }
  }

  lemma {:induction false} ParseDeclarations(n: nat, lines: seq<Instruction>, k: nat)
    requires k <= 2 * n + 2 <= |lines| && forall i | 0 <= i < 2 * n + 2 :: lines[i] == Declaration(n, i)
    ensures var r := ParsePrefix(lines, k);
      r.Ok? && r.value.registers == TableAfter(n, k) && r.value.numQubits == QubitsAfter(n, k) && r.value.numBits == 0
  {
    if k > 0 {
      ParseDeclarations(n, lines, k - 1);
      OneDeclaration(n, k - 1, ParsePrefix(lines, k - 1).value);
    }
  }

  lemma {:induction false} GateLine(c: Circuit, g: Gate)
    requires Fits(g, c.numQubits)
    ensures AddLine(c, Encode(g)).Some?
    ensures var d := AddLine(c, Encode(g)).value;
      d.registers == c.registers && d.numQubits == c.numQubits && d.numBits == c.numBits
  {
    var t := Encode(g).targets;
    NoTargets();
    match g
    case Not(a) =>
      BoundStep(Qubit(a), []);
      assert t == [Qubit(a)] + [];
    case Cnot(a, b) =>
      BoundStep(Qubit(b), []);
      BoundStep(Qubit(a), [Qubit(b)]);
      assert t == [Qubit(a)] + [Qubit(b)] && [Qubit(b)] == [Qubit(b)] + [];
    case Toffoli(a, b, d) =>
      BoundStep(Qubit(d), []);
      BoundStep(Qubit(b), [Qubit(d)]);
      BoundStep(Qubit(a), [Qubit(b), Qubit(d)]);
      assert t == [Qubit(a)] + [Qubit(b), Qubit(d)] && [Qubit(b), Qubit(d)] == [Qubit(b)] + [Qubit(d)];
      assert [Qubit(d)] == [Qubit(d)] + [];
  }

  lemma {:induction false} NoTargets()
    ensures QubitBound([]) == 0 && BitBound([]) == 0
  {
  }

  lemma {:induction false} BoundStep(first: Target, rest: seq<Target>)
    ensures QubitBound([first] + rest) == Max(if first.Qubit? then first.q + 1 else 0, QubitBound(rest))
    ensures BitBound([first] + rest) == Max(if first.ClassicalBit? then first.b + 1 else 0, BitBound(rest))
  {
    assert ([first] + rest)[1..] == rest;
  }

  /** Gates inside the declared qubits change neither the table nor the counts. */
  lemma {:induction false} ParseGates(lines: seq<Instruction>, d: nat, gs: seq<Gate>, k: nat)
    requires d <= k <= |lines| == d + |gs| && forall i | 0 <= i < |gs| :: lines[d + i] == Encode(gs[i])
    requires ParsePrefix(lines, d).Ok? && AllFit(gs, ParsePrefix(lines, d).value.numQubits)
    ensures var r, c := ParsePrefix(lines, k), ParsePrefix(lines, d).value;
      r.Ok? && r.value.registers == c.registers && r.value.numQubits == c.numQubits && r.value.numBits == c.numBits
  {
    if k > d {
      ParseGates(lines, d, gs, k - 1);
      assert gs[k - 1 - d] in gs;
      GateLine(ParsePrefix(lines, k - 1).value, gs[k - 1 - d]);
    }
  }

  lemma {:induction false} FileLines(n: nat, gs: seq<Gate>, lines: seq<Instruction>)
    requires lines == Declarations(n) + EncodeAll(gs)
    ensures |lines| == 2 * n + 2 + |gs|
    ensures forall i | 0 <= i < 2 * n + 2 :: lines[i] == Declaration(n, i)
    ensures forall i | 0 <= i < |gs| :: lines[2 * n + 2 + i] == Encode(gs[i])
  {
    var a, b := Declarations(n), EncodeAll(gs);
    assert forall i | 0 <= i < 2 * n + 2 :: a[i] == Declaration(n, i);
    hide *;
    forall i | 0 <= i < 2 * n + 2 ensures lines[i] == Declaration(n, i) {
      assert lines[i] == a[i];
    }
    forall i | 0 <= i < |gs| ensures lines[2 * n + 2 + i] == Encode(gs[i]) {
      assert lines[2 * n + 2 + i] == b[i];
    }
  }

  /** Any gates on the declared qubits, after the declarations, parse to two `n`-qubit registers and no classical bits. */
  lemma {:induction false} ParsesToTwoRegisters(lines: seq<Instruction>, n: nat, gs: seq<Gate>)
    requires lines == Declarations(n) + EncodeAll(gs) && AllFit(gs, 2 * n)
    ensures Parse(lines) == Ok(TwoRegisters(lines, n))
  {
    hide ParsePrefix, Declarations, Declaration, Encode, EncodeAll, AllFit, Range;
    var d := 2 * n + 2;
    FileLines(n, gs, lines);
    ParseDeclarations(n, lines, d);
    ParseGates(lines, d, gs, |lines|);
    ParsePrefixWellFormed(lines, |lines|);
    assert lines[..|lines|] == lines;
  }

  function TwoRegisters(lines: seq<Instruction>, n: nat): Circuit {
    Circuit(lines, [RegisterEntry(0, Range(0, n)), RegisterEntry(1, Range(n, n))], 2 * n, 0)
  }

  lemma {:induction false} AdderFits(n: nat, k: nat)
    requires n >= 3
    ensures AllFit(Repeat(Adder.AdderGates(n), k), 2 * n)
  {
    Adder.RepeatedAdderAdds(n, k, seq(2 * n, i => false));
  }

  function AdderCircuit(n: nat, k: nat): Circuit
    requires n >= 3
  {
    TwoRegisters(AdderFile(n, k), n)
  }

  lemma {:induction false} ParsesToAdderCircuit(n: nat, k: nat)
    requires n >= 3
    ensures Parse(AdderFile(n, k)) == Ok(AdderCircuit(n, k))
  {
    AdderFits(n, k);
    hide Parse, AllFit, Repeat, Adder.AdderGates;
    ParsesToTwoRegisters(AdderFile(n, k), n, Repeat(Adder.AdderGates(n), k));
  }

  // ---------------------------------------------------------------- one case

  lemma {:induction false} TableLoadable(lines: seq<Instruction>, n: nat)
    requires n <= 128
    ensures Loadable(TwoRegisters(lines, n))
  {
  }

  /** The two registers loaded with `x` and `y`, as one bit vector. */
  function Start(n: nat, x: nat, y: nat): (q: seq<bool>)
    ensures |q| == 2 * n
  {
    BitsOf(x, n) + BitsOf(y, n)
  }

  lemma {:induction false} LoadedRange(q: seq<bool>, from: nat, n: nat, v: nat)
    requires from + n <= |q|
    ensures Loaded(q, Range(from, n), v, n) == q[..from] + BitsOf(v, n) + q[from + n..]
  {
    hide TestBit, Loaded;
    LoadedAt(q, Range(from, n), v, n);
    var r := Loaded(q, Range(from, n), v, n);
    forall j | 0 <= j < |q| ensures r[j] == (q[..from] + BitsOf(v, n) + q[from + n..])[j] {
      if from <= j < from + n {
        assert Range(from, n)[j - from] == j;
        BitsOfAt(v, n, j - from);
      }
    }
  }

  lemma {:induction false} LoadsStart(lines: seq<Instruction>, n: nat, x: nat, y: nat)
    requires n <= 128
    ensures Loadable(TwoRegisters(lines, n))
    ensures Initial(TwoRegisters(lines, n), [x, y]) == Machine(Start(n, x, y), [], false, [], 0)
  {
    var c := TwoRegisters(lines, n);
    TableLoadable(lines, n);
    var q0 := seq(2 * n, i => false);
    LoadedRange(q0, 0, n, x);
    var q1 := Loaded(q0, Range(0, n), x, n);
    LoadedRange(q1, n, n, y);
    assert LoadAll(c, [x, y], 0) == q0;
    assert LoadAll(c, [x, y], 1) == q1;
    assert q1[..n] == BitsOf(x, n);
    assert LoadAll(c, [x, y], 2) == Start(n, x, y);
  }

  lemma {:induction false} GatheredRange(q: seq<bool>, from: nat, n: nat)
    requires from + n <= |q|
    ensures Gathered(q, Range(from, n)) == q[from..from + n]
  {
  }

  /** Gates between the declarations and the end act on the loaded registers alone. */
  lemma {:induction false} RunsGates(n: nat, gs: seq<Gate>, m: Machine, trajectory: Trajectory)
    requires AllFit(gs, |m.qubits|) && AllTrue(m.stack)
    ensures Run(Declarations(n) + EncodeAll(gs), m, trajectory) == Some(m.(qubits := ApplyAll(gs, m.qubits)))
  {
    SkipsMetadata(Declarations(n), m, trajectory);
    RunConcat(Declarations(n), EncodeAll(gs), m, trajectory);
    RunIsApplyAll(gs, m, trajectory);
  }

  lemma {:induction false} SkipsMetadata(p: seq<Instruction>, m: Machine, trajectory: Trajectory)
    requires forall k | 0 <= k < |p| :: IsMetadata(p[k].opcode)
    ensures Run(p, m, trajectory) == Some(m)
    decreases |p|
  {
    if p != [] {
      SkipsMetadata(p[1..], m, trajectory);
    }
  }

  lemma {:induction false} AdderCaseState(n: nat, k: nat, x: nat, y: nat, trajectory: Trajectory)
    requires 3 <= n <= 128
    ensures Loadable(AdderCircuit(n, k))
    ensures AllFit(Repeat(Adder.AdderGates(n), k), 2 * n)
    ensures Run(AdderFile(n, k), Initial(AdderCircuit(n, k), [x, y]), trajectory)
         == Some(Machine(ApplyAll(Repeat(Adder.AdderGates(n), k), Start(n, x, y)), [], false, [], 0))
  {
    AdderFits(n, k);
    LoadsStart(AdderFile(n, k), n, x, y);
    hide ApplyAll, AllFit, Repeat, Adder.AdderGates, Run, Initial, Declarations, EncodeAll, Start, Loadable;
    RunsGates(n, Repeat(Adder.AdderGates(n), k), Initial(AdderCircuit(n, k), [x, y]), trajectory);
  }

  lemma {:induction false} StartRegisters(n: nat, x: nat, y: nat)
    ensures Adder.R0(Start(n, x, y), n) == BitsOf(x, n)
    ensures Adder.R1(Start(n, x, y), n) == BitsOf(y, n)
    ensures Start(n, x, y)[n..] == BitsOf(y, n)
  {
  }

  /** What two registers of `n` qubits hold, and that they cover every qubit. */
  lemma {:induction false} TwoRegistersRead(lines: seq<Instruction>, n: nat, q: seq<bool>)
    requires Loadable(TwoRegisters(lines, n)) && |q| == 2 * n
    ensures Got(TwoRegisters(lines, n), q, 0) == BitsValue(q[..n])
    ensures Got(TwoRegisters(lines, n), q, 1) == BitsValue(q[n..])
    ensures forall i | 0 <= i < 2 * n :: IsMember(TwoRegisters(lines, n), i)
  {
    var c := TwoRegisters(lines, n);
    GatheredRange(q, 0, n);
    GatheredRange(q, n, n);
    assert q[0..0 + n] == q[..n] && q[n..n + n] == q[n..];
    forall i | 0 <= i < 2 * n ensures IsMember(c, i) {
      if i < n {
        assert c.registers[0].members[i] == i;
      } else {
        assert c.registers[1].members[i - n] == i;
      }
    }
  }

  /** `k` runs of the adder on the loaded registers leave `x + k*y` and `y`. */
  lemma {:induction false} AdderResult(n: nat, k: nat, x: nat, y: nat, q': seq<bool>)
    requires n >= 3 && x < Pow2(n) && y < Pow2(n)
    requires Adder.AddedTimes(n, k, Pow2(n), Start(n, x, y), q')
    ensures |q'| == 2 * n
    ensures BitsValue(q'[..n]) == (x + k * y) % Pow2(n)
    ensures BitsValue(q'[n..]) == y
  {
    StartRegisters(n, x, y);
    BitsValueOfBits(x, n);
    BitsValueOfBits(y, n);
    hide *;
    SmallMod(x, Pow2(n));
    SmallMod(y, Pow2(n));
    AddedTimesMeans(n, k, Pow2(n), Start(n, x, y), q');
  }

  lemma {:induction false} SmallMod(v: nat, p: nat)
    requires v < p
    ensures v % p == v
  {
    DivModUnique(v, p, 0, v);
  }

  lemma {:induction false} AddedTimesMeans(n: nat, k: nat, p: nat, q: seq<bool>, q': seq<bool>)
    requires 2 * n <= |q| && p > 0 && Adder.AddedTimes(n, k, p, q, q')
    ensures |q'| == |q| && q'[n..] == q[n..]
    ensures BitsValue(q'[..n]) == (BitsValue(Adder.R0(q, n)) + k * BitsValue(Adder.R1(q, n))) % p
  {
  }

  lemma {:induction false} AdderCircuitShape(n: nat, k: nat)
    requires n >= 3
    ensures var c := AdderCircuit(n, k);
      && c == TwoRegisters(AdderFile(n, k), n)
      && c.numQubits == 2 * n && |c.registers| == 2 && c.instructions == AdderFile(n, k)
  {
    hide AdderFile, Range;
  }

  lemma {:induction false} ExpectedValues(n: nat, k: nat, x: nat, y: nat, p: S.Params)
    requires n >= 3 && p.width == n && p.repetitions == k
    ensures var c, cs := AdderCircuit(n, k), S.CaseOf((x, y), p);
      && |c.registers| == 2 && cs.inputs == [x, y]
      && Expected(c, cs.outputs, 0) == S.SpecSum(x, y, k, n) % Pow2(n) && Expected(c, cs.outputs, 1) == y % Pow2(n)
  {
    hide AdderFile, S.SpecSum, Pow2;
    var c := AdderCircuit(n, k);
    assert |c.registers[0].members| == n && |c.registers[1].members| == n;
  }

  /** Every derived case passes on `k` copies of the adder, whatever the trajectory. */
  lemma {:induction false} AdderCasePasses(n: nat, k: nat, x: nat, y: nat, p: S.Params, trajectory: Trajectory)
    requires 3 <= n <= 128 && x < Pow2(n) && y < Pow2(n)
    requires p.width == n && p.repetitions == k
    ensures Loadable(AdderCircuit(n, k))
    ensures CheckCase(AdderCircuit(n, k), S.CaseOf((x, y), p), trajectory) == Finished(None)
  {
    hide *;
    var c, cs := AdderCircuit(n, k), S.CaseOf((x, y), p);
    AdderCircuitShape(n, k);
    ExpectedValues(n, k, x, y, p);
    AdderCaseState(n, k, x, y, trajectory);
    var q' := ApplyAll(Repeat(Adder.AdderGates(n), k), Start(n, x, y));
    Adder.RepeatedAdderAdds(n, k, Start(n, x, y));
    AdderResult(n, k, x, y, q');
    TwoRegistersRead(AdderFile(n, k), n, q');
    SpecReduced(x, y, k, n);
    SmallMod(y, Pow2(n));
    PassMeans(c, cs, trajectory);
  }

  lemma {:induction false} SpecReduced(x: nat, y: nat, k: nat, n: nat)
    requires 1 <= n <= 128
    ensures S.SpecSum(x, y, k, n) % Pow2(n) == (x + k * y) % Pow2(n)
  {
    S.SpecSumIsModular(x, y, k, n);
    hide *;
    SmallMod((x + k * y) % Pow2(n), Pow2(n));
  }

  // ---------------------------------------------------------------- the resource counts

  lemma {:induction false} CountEncoded(gs: seq<Gate>)
    ensures S.CountNonClifford(EncodeAll(gs)) == Adder.CountToffoli(gs)
    decreases |gs|
  {
    if gs != [] {
      assert EncodeAll(gs)[1..] == EncodeAll(gs[1..]);
      CountEncoded(gs[1..]);
    }
  }

  lemma {:induction false} CountAfterMetadata(p: seq<Instruction>, q: seq<Instruction>)
    requires forall k | 0 <= k < |p| :: IsMetadata(p[k].opcode)
    ensures S.CountNonClifford(p + q) == S.CountNonClifford(q)
    decreases |p|
  {
    if p == [] {
      assert p + q == q;
    } else {
      assert (p + q)[1..] == p[1..] + q;
      CountAfterMetadata(p[1..], q);
    }
  }

  lemma {:induction false} AdderFileCounts(n: nat, k: nat)
    requires n >= 3
    ensures S.CountNonClifford(AdderFile(n, k)) == k * (2 * n - 3)
    ensures |AdderFile(n, k)| == 2 * n + 2 + k * (10 * n - 13)
  {
    var gs := Repeat(Adder.AdderGates(n), k);
    CountAfterMetadata(Declarations(n), EncodeAll(gs));
    CountEncoded(gs);
    Adder.AdderCounts(n);
    Adder.RepeatCounts(Adder.AdderGates(n), k);
  }

  function AdderResources(n: nat, k: nat, samples: nat): S.Resources
    requires n >= 3
  {
    S.Resources(samples, 2 * n, k * (2 * n - 3), 2 * n + 2 + k * (10 * n - 13))
  }

  // ---------------------------------------------------------------- main result

  lemma {:induction false} AllAdderCasesPass(n: nat, k: nat, p: S.Params, cases: seq<(nat, nat)>, t: S.CaseTrajectories)
    requires 3 <= n <= 128 && p.width == n && p.repetitions == k
    requires forall i | 0 <= i < |cases| :: cases[i].0 < Pow2(n) && cases[i].1 < Pow2(n)
    ensures Loadable(AdderCircuit(n, k))
    ensures S.AllPass(AdderCircuit(n, k), p, cases, t, 0)
  {
    TableLoadable(AdderFile(n, k), n);
    hide S.CaseOf, CheckCase, AdderCircuit, Loadable, Pow2;
    forall i | 0 <= i < |cases|
      ensures CheckCase(AdderCircuit(n, k), S.CaseOf(cases[i], p), t(i)) == Finished(None)
    {
      AdderCasePasses(n, k, cases[i].0, cases[i].1, p, t(i));
    }
  }

  /** Parse the adder file and run the statement on it. */
  function ProveAdder(
    n: nat, k: nat, samples: nat, demanded: S.Resources, hash: seq<Byte>, t: S.CaseTrajectories): S.Outcome
    requires 3 <= n <= 128
  {
    ParsesToAdderCircuit(n, k);
    var c := Parse(AdderFile(n, k)).value;
    assert Loadable(c) by {
      TableLoadable(AdderFile(n, k), n);
    }
    S.Run(c, hash, S.Params(k, n, samples, demanded), t)
  }

  /** `[N, 2n, K(2n-3), 2n+2+K(10n-13), 42]` */
  function AdderOutputs(n: nat, k: nat, samples: nat): seq<nat>
    requires n >= 3
  {
    [samples, 2 * n, k * (2 * n - 3), 2 * n + 2 + k * (10 * n - 13), 42]
  }

  lemma {:induction false} OutputsAreCounts(n: nat, k: nat, samples: nat)
    requires n >= 3
    ensures S.PublicOutputs(S.CountResources(AdderCircuit(n, k), samples)) == AdderOutputs(n, k, samples)
    ensures S.CountResources(AdderCircuit(n, k), samples) == AdderResources(n, k, samples)
  {
    AdderFileCounts(n, k);
    hide AdderFile, S.CountNonClifford;
  }

  /**
   For every circuit hash, width 3 to 128, sample count and repetition count,
   and whatever the measurement trajectories: parsing the adder file and running
   the statement returns the public outputs exactly when they are within the
   demanded bounds.
   */
  lemma {:induction false} AdderStatementHolds(
    n: nat, k: nat, samples: nat, demanded: S.Resources, hash: seq<Byte>, t: S.CaseTrajectories)
    requires 3 <= n <= 128 && samples > 0
    ensures ProveAdder(n, k, samples, demanded, hash, t) == S.Returned(Ok(AdderOutputs(n, k, samples)))
       <==> S.Within(AdderResources(n, k, samples), demanded)
  {
    var p, cases := S.Params(k, n, samples, demanded), FiatShamir.Cases(hash, n, samples);
    OutputsAreCounts(n, k, samples);
    ParsesToAdderCircuit(n, k);
    AllAdderCasesPass(n, k, p, cases, t);
    hide AdderCircuit, Parse, AdderFile, S.Run, FiatShamir.Cases, S.AllPass, S.Within, AdderOutputs, AdderResources,
      S.CountResources, S.PublicOutputs;
    S.StatementAccepts(AdderCircuit(n, k), hash, p, t);
  }
}
