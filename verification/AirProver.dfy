/**
 The prover's sums as its loops compute them, and the run that compares the
 claimed sum with the public one.
 */
module AirProver {
  import opened Binary
  import opened Wrappers
  import opened Fields
  import opened Mersenne31
  import opened Limbs
  import opened AirConstraints
  import opened AirRelations
  import opened AirSoundness
  import opened AirTrace
  import opened AirCompleteness
  import opened AirLookups
  import opened AirSums
  import opened AirGenerator

  /** The fixture check: every output is `r0 + K * r1` modulo `2^256`. */
  method CheckFixtureOutputs(cases: seq<TestCase>, repetitions: nat) returns (r: Result<(), AirError>)
    ensures r.Ok? <==> OutputsCorrect(cases, repetitions)
    ensures r.Err? ==> r.error.ShortState? || r.error.OutputMismatch?
    ensures r.Err? && r.error.OutputMismatch? ==>
              && r.error.index < |cases| && HasOutput(cases[r.error.index])
              && !OutputCorrect(cases[r.error.index], repetitions)
              && OutputsCorrect(cases[..r.error.index], repetitions)
    ensures r.Err? && r.error.ShortState? ==> exists i | 0 <= i < |cases| :: !HasOutput(cases[i])
  {
    hide Pow2, LeValue, OutputCorrect, HasOutput;
    var modulus := Pow2(256);
    for i := 0 to |cases|
      invariant forall j | 0 <= j < i :: OutputCorrect(cases[j], repetitions)
    {
      var expected := (cases[i].r0In + cases[i].r1In * repetitions) % modulus;
      var actual := LowRegister(cases[i].y);
      CaseVerdict(cases[i], repetitions);
      if actual.Err? {
        return Err(actual.error);
      }
      if expected != actual.value {
        return Err(OutputMismatch(i));
      }
    }
    return Ok(());
  }

  lemma {:induction false} CaseVerdict(t: TestCase, repetitions: nat)
    ensures var low := LowRegister(t.y);
      && (low.Ok? <==> HasOutput(t))
      && (low.Err? ==> low.error == ShortState)
      && (low.Ok? && (t.r0In + t.r1In * repetitions) % Pow2(256) == low.value <==> OutputCorrect(t, repetitions))
  {
    hide Pow2, LeValue;
    assert t.r1In * repetitions == repetitions * t.r1In;
  }

  /** One case's part of the boundary sum. */
  method PublicBoundaryTerm<F(!new)>(f: Field<F>, el: Elements<F>, sampleIdx: nat, t: TestCase, repetitions: nat)
    returns (r: Result<F, AirError>)
    requires sampleIdx < P && repetitions < P
    ensures r.Ok? <==> HasOutput(t)
    ensures r.Ok? ==> r.value == BoundaryTerm(f, el, sampleIdx, t, repetitions)
  {
    hide LimbsOf, LeValue, Canonical, StateFromLimbs, LimbsValue, Pow2;
    var r0 := BiguintToLimbs(t.r0In);
    var r1 := BiguintToLimbs(t.r1In);
    var initial := StateFromLimbs(sampleIdx, 0, r0, r1);
    var low := LowRegister(t.y);
    if low.Err? {
      return Err(low.error);
    }
    var finalAcc := BiguintToLimbs(low.value);
    var last := StateFromLimbs(sampleIdx, repetitions, finalAcc, r1);
    return Ok(f.add(f.inv(el.state(initial)), f.neg(f.inv(el.state(last)))));
  }

  method PublicBoundarySum<F(!new)>(f: Field<F>, el: Elements<F>, cases: seq<TestCase>, repetitions: nat)
    returns (r: Result<F, AirError>)
    requires |cases| < P && repetitions < P
    ensures r.Ok? <==> forall j | 0 <= j < |cases| :: HasOutput(cases[j])
    ensures r.Ok? ==> r.value == BoundarySum(f, el, cases, |cases|, repetitions)
  {
    hide BoundaryTerm, HasOutput;
    var sum := f.zero;
    for sampleIdx := 0 to |cases|
      invariant forall j | 0 <= j < sampleIdx :: HasOutput(cases[j])
      invariant sum == BoundarySum(f, el, cases, sampleIdx, repetitions)
    {
      var term := PublicBoundaryTerm(f, el, sampleIdx, cases[sampleIdx], repetitions);
      if term.Err? {
        return Err(term.error);
      }
      sum := f.add(sum, term.value);
    }
    return Ok(sum);
  }

  lemma {:induction false} SkipZero<F(!new)>(f: Field<F>, sum: F, x: F)
    requires Lawful(f)
    ensures f.add(sum, f.mul(f.zero, x)) == sum
  {
    hide Lawful;
    MulZero(f, x);
    AddLaws(f, sum, sum, sum);
  }

  /** The value-indexed sum of one table; entries that are never looked up are skipped. */
  method SeqLookupPublicSum<F(!new)>(f: Field<F>, combine: Felt -> F, counts: seq<nat>) returns (sum: F)
    requires Lawful(f) && |counts| < P
    ensures sum == SeqSum(f, combine, counts, |counts|)
  {
    hide Lawful;
    sum := f.zero;
    for value := 0 to |counts|
      invariant sum == SeqSum(f, combine, counts, value)
    {
      if counts[value] == 0 {
        SkipZero(f, sum, f.inv(combine(value)));
      } else {
        sum := f.add(sum, f.mul(Embed(f, counts[value]), f.inv(combine(value))));
      }
    }
  }

  method LookupPublicSum<F(!new)>(f: Field<F>, el: Elements<F>, counts: Counts) returns (sum: F)
    requires Lawful(f) && counts.Sized()
    ensures sum == LookupSum(f, el, counts)
  {
    hide SeqSum, Lawful, TableSize;
    var s18 := SeqLookupPublicSum(f, el.seq18, counts.seq18);
    var s11 := SeqLookupPublicSum(f, el.seq11, counts.seq11);
    var s6 := SeqLookupPublicSum(f, el.seq6, counts.seq6);
    sum := f.add(f.add(s18, s11), s6);
  }

  /** The sum that a table's own component claims, pack by pack: the negated public sum. */
  method GenSeqLookupInteraction<F(!new)>(f: Field<F>, combine: Felt -> F, counts: seq<nat>) returns (claimed: F)
    requires Lawful(f) && |counts| < P && |counts| % LANE_COUNT == 0
    ensures claimed == f.neg(SeqSum(f, combine, counts, |counts|))
  {
    hide Lawful;
    claimed := f.zero;
    NegZero(f);
    for vecRow := 0 to |counts| / LANE_COUNT
      invariant claimed == f.neg(SeqSum(f, combine, counts, vecRow * LANE_COUNT))
    {
      for lane := 0 to LANE_COUNT
        invariant claimed == f.neg(SeqSum(f, combine, counts, vecRow * LANE_COUNT + lane))
      {
        var v := vecRow * LANE_COUNT + lane;
        var e, x := Embed(f, counts[v]), f.inv(combine(v));
        NegMul(f, e, x);
        NegAdd(f, SeqSum(f, combine, counts, v), f.mul(e, x));
        claimed := f.add(claimed, f.mul(f.neg(e), x));
      }
    }
  }

  /** The sum of one batch, pack by pack and lane by lane. */
  method SumBatch<F(!new)>(f: Field<F>, el: Elements<F>, batch: nat, calls: seq<(nat, seq<Row>)>, ghost rows: seq<Row>)
    returns (sum: F)
    requires batch <= LIMBS && AllFit(rows) && |rows| == LANE_COUNT * |calls| && calls == PackCalls(rows, |calls|)
    ensures sum == BatchSum(f, el, batch, rows)
  {
    hide MainBatchedFraction, AllFit, BatchSum, PackCalls;
    sum := f.zero;
    NoRows(f, el, batch);
    assert rows[..0] == [];
    for v := 0 to |calls|
      invariant AllFit(rows[..LANE_COUNT * v]) && sum == BatchSum(f, el, batch, rows[..LANE_COUNT * v])
    {
      for lane := 0 to LANE_COUNT
        invariant AllFit(rows[..LANE_COUNT * v + lane])
        invariant sum == BatchSum(f, el, batch, rows[..LANE_COUNT * v + lane])
      {
        LaneIsRow(rows, |calls|, v, lane);
        SumLane(f, el, batch, rows, LANE_COUNT * v + lane);
        sum := f.add(sum, Value(f, MainBatchedFraction(f, el, batch, calls[v].1[lane])));
      }
    }
    assert rows[..|rows|] == rows;
  }

  lemma {:induction false} LaneIsRow(rows: seq<Row>, n: nat, v: nat, lane: nat)
    requires LANE_COUNT * n <= |rows| && v < n && lane < LANE_COUNT
    ensures PackCalls(rows, n)[v].1 == Pack(rows, v) && Pack(rows, v)[lane] == rows[LANE_COUNT * v + lane]
  {
  }

  lemma {:induction false} SumLane<F(!new)>(f: Field<F>, el: Elements<F>, batch: nat, rows: seq<Row>, n: nat)
    requires AllFit(rows) && n < |rows| && batch <= LIMBS
    ensures Fits(rows[n]) && AllFit(rows[..n]) && AllFit(rows[..n + 1])
    ensures BatchSum(f, el, batch, rows[..n + 1])
         == f.add(BatchSum(f, el, batch, rows[..n]), Value(f, MainBatchedFraction(f, el, batch, rows[n])))
  {
    hide MainBatchedFraction, Fits, BatchSum;
    assert rows[..n + 1] == rows[..n] + [rows[n]];
    BatchSumAppend(f, el, batch, rows[..n], rows[n]);
  }

  /** The claimed sum of the main component: every batch over every pack of rows. */
  method GenMainInteraction<F(!new)>(f: Field<F>, el: Elements<F>, mode: RangeCheckMode,
                                     cases: seq<TestCase>, repetitions: nat, padded: nat) returns (claimed: F)
    requires |cases| < P && repetitions < P && |cases| * repetitions <= padded && padded % LANE_COUNT == 0
    ensures AllFit(PaddedRows(cases, repetitions, padded))
    ensures claimed == MainClaimedSum(f, el, mode, PaddedRows(cases, repetitions, padded))
  {
    hide AllFit, PaddedRows, BatchSum;
    PaddedRowsHonest(cases, repetitions, padded);
    ghost var rows := PaddedRows(cases, repetitions, padded);
    claimed := f.zero;
    for batch := 0 to MainInteractionBatches(mode)
      invariant claimed == BatchesSum(f, el, batch, rows)
    {
      var calls := ForEachPackedRow(cases, repetitions, padded);
      var sum := SumBatch(f, el, batch, calls, rows);
      claimed := f.add(claimed, sum);
    }
  }

  // ---- The run ----

  datatype RunError = EmptyRun | RunTooLarge | Fixture(error: AirError) | SumMismatch | TableMismatch(table: Table)

  ghost predicate IsPowerOfTwo(m: nat) {
    exists e: nat :: m == Pow2(e)
  }

  lemma {:induction false} DoublePower(m: nat)
    requires IsPowerOfTwo(m)
    ensures IsPowerOfTwo(2 * m)
  {
    var e: nat :| m == Pow2(e);
    assert 2 * m == Pow2(e + 1);
  }

  /** The smallest power of two that is at least `n` and at least the power of two `p`. */
  function PowerOfTwoFrom(p: nat, n: nat): (r: nat)
    requires p > 0
    ensures r >= n && r >= p && (r == p || r < 2 * n)
    ensures IsPowerOfTwo(p) ==> IsPowerOfTwo(r)
    ensures p % LANE_COUNT == 0 ==> r % LANE_COUNT == 0
    decreases n - p
  {
    if n <= p then p
    else
      assert IsPowerOfTwo(p) ==> IsPowerOfTwo(2 * p) by { if IsPowerOfTwo(p) { DoublePower(p); } }
      PowerOfTwoFrom(2 * p, n)
  }

  /** The rows of the trace: the smallest power of two that holds them, and no fewer than 64. */
  function PaddedLength(targetRows: nat): (r: nat)
    ensures r >= targetRows && r >= 64 && (r == 64 || r < 2 * targetRows)
    ensures IsPowerOfTwo(r)
    ensures r % LANE_COUNT == 0
  {
    assert IsPowerOfTwo(64) by { assert 64 == Pow2(6); }
    PowerOfTwoFrom(64, targetRows)
  }

  /** No smaller power of two would do. */
  lemma {:induction false} PaddedLengthIsLeast(targetRows: nat, e: nat)
    requires Pow2(e) >= targetRows && Pow2(e) >= 64
    ensures PaddedLength(targetRows) <= Pow2(e)
  {
    var r := PaddedLength(targetRows);
    var d: nat :| r == Pow2(d);
    if d > e {
      Pow2Monotone(e + 1, d);
    } else {
      Pow2Monotone(d, e);
    }
  }

  predicate Accepted(cases: seq<TestCase>, repetitions: nat) {
    && 0 < |cases| < P && 0 < repetitions < P
    && OutputsCorrect(cases, repetitions)
  }

  /** The combinations drawn for a run do not vanish where the run inverts them. */
  ghost predicate WellDrawn<F(!new)>(
      f: Field<F>, el: Elements<F>, mode: RangeCheckMode, cases: seq<TestCase>, repetitions: nat)
    requires |cases| < P && repetitions < P
  {
    var rows := PaddedRows(cases, repetitions, PaddedLength(|cases| * repetitions));
    AllFit(rows) && Defined(f, el, mode, rows)
  }

  /**
   The prover's run up to the comparison of its claimed sums: it succeeds on
   every fixture whose outputs check, so the mismatch errors are unreachable.
   */
  method ProveRun<F(!new, ==)>(
      f: Field<F>, el: Elements<F>, mode: RangeCheckMode, cases: seq<TestCase>, repetitions: nat)
    returns (r: Result<nat, RunError>)
    requires Lawful(f)
    requires Accepted(cases, repetitions) ==> WellDrawn(f, el, mode, cases, repetitions)
    ensures r.Ok? <==> Accepted(cases, repetitions)
    ensures r.Ok? ==> r.value == PaddedLength(|cases| * repetitions)
    ensures r.Ok? ==> IsPowerOfTwo(r.value) && r.value >= 64 && r.value >= |cases| * repetitions
    ensures r.Ok? ==> r.value == 64 || r.value < 2 * (|cases| * repetitions)
    ensures r.Err? ==> r.error.EmptyRun? || r.error.RunTooLarge? || r.error.Fixture?
    ensures r.Err? && r.error.EmptyRun? <==> |cases| == 0 || repetitions == 0
    ensures r.Err? && r.error.RunTooLarge? <==> |cases| > 0 && repetitions > 0 && (|cases| >= P || repetitions >= P)
  {
    hide Lawful, OutputsCorrect, CountsAfter, Defined, PaddedLength, MainClaimedSum, BoundarySum, LookupSum,
      TraceRows, AllFit, PaddedRows;
    if |cases| == 0 || repetitions == 0 {
      return Err(EmptyRun);
    }
    if |cases| >= P || repetitions >= P {
      return Err(RunTooLarge);
    }
    var check := CheckFixtureOutputs(cases, repetitions);
    if check.Err? {
      return Err(Fixture(check.error));
    }
    CorrectHasOutputs(cases, repetitions);
    var padded := PaddedLength(|cases| * repetitions);
    var cols, counts := GenerateMainTrace(cases, repetitions, padded, mode);
    ClaimedSumIsExpected(f, el, mode, cases, repetitions, padded);
    var claimed := GenMainInteraction(f, el, mode, cases, repetitions, padded);
    var boundary := PublicBoundarySum(f, el, cases, repetitions);
    match boundary {
      case Err(error) =>
        return Err(Fixture(error));
      case Ok(boundarySum) =>
        var lookup := f.zero;
        var mismatch := None;
        if counts.Some? {
          lookup := LookupPublicSum(f, el, counts.value.Contents());
        }
        if claimed != f.add(boundarySum, lookup) {
          return Err(SumMismatch);
        }
        if counts.Some? {
          mismatch := CheckTables(f, el, counts.value.Contents());
        }
        match mismatch {
          case Some(table) => return Err(TableMismatch(table));
          case None => return Ok(padded);
        }
    }
  }

  lemma {:induction false} CorrectHasOutputs(cases: seq<TestCase>, repetitions: nat)
    requires OutputsCorrect(cases, repetitions)
    ensures forall j | 0 <= j < |cases| :: HasOutput(cases[j])
  {
    hide OutputCorrect;
    forall j | 0 <= j < |cases| ensures HasOutput(cases[j]) {
      assert OutputCorrect(cases[j], repetitions);
      CorrectHasOutput(cases[j], repetitions);
    }
  }

  lemma {:induction false} CorrectHasOutput(t: TestCase, repetitions: nat)
    requires OutputCorrect(t, repetitions)
    ensures HasOutput(t)
  {
  }

  /** Compares each table component's claimed sum with its public sum; they never differ. */
  method CheckTables<F(!new, ==)>(f: Field<F>, el: Elements<F>, counts: Counts) returns (mismatch: Option<Table>)
    requires Lawful(f) && counts.Sized()
    ensures mismatch == None
  {
    hide Lawful, SeqSum;
    var claimed := GenSeqLookupInteraction(f, el.seq18, counts.seq18);
    var expected := SeqLookupPublicSum(f, el.seq18, counts.seq18);
    if claimed != f.neg(expected) {
      return Some(Seq18);
    }
    claimed := GenSeqLookupInteraction(f, el.seq11, counts.seq11);
    expected := SeqLookupPublicSum(f, el.seq11, counts.seq11);
    if claimed != f.neg(expected) {
      return Some(Seq11);
    }
    claimed := GenSeqLookupInteraction(f, el.seq6, counts.seq6);
    expected := SeqLookupPublicSum(f, el.seq6, counts.seq6);
    if claimed != f.neg(expected) {
      return Some(Seq6);
    }
    return None;
  }
}
