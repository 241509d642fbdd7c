/**
 Completeness of the native AIR: the honest trace meets every constraint in
 every mode, and it balances the state relation exactly when the public outputs
 are the repeated sums.
 */
module AirCompleteness {
  import opened Binary
  import opened Mersenne31
  import opened Limbs
  import opened AirConstraints
  import opened RangeChecks
  import opened AirRelations
  import opened AirTrace
  import opened AirSoundness

  predicate AllFit(rows: seq<Row>) {
    forall r | 0 <= r < |rows| :: Fits(rows[r])
  }

  function HonestCells(mode: RangeCheckMode, rows: seq<Row>): (s: seq<Cells>)
    requires AllFit(rows)
    ensures |s| == |rows|
    ensures forall r | 0 <= r < |rows| :: |s[r]| == TraceColumns(mode)
  {
    seq(|rows|, r requires 0 <= r < |rows| => CellsOf(mode, rows[r]))
  }

  /** A row of the honest trace: a real addition of canonical limbs, or a zero row. */
  predicate HonestRow(row: Row) {
    && Fits(row)
    && (row == ZeroRow() || (row.isReal == 1 && row.next == SumLimbs(row.acc, row.addend)
                             && row.carry == Carries(row.acc, row.addend)))
  }

  predicate AllHonest(rows: seq<Row>) {
    forall r | 0 <= r < |rows| :: HonestRow(rows[r])
  }

  lemma {:induction false} RealRowHonest(j: nat, k: nat, acc: LimbArray, addend: LimbArray)
    requires j < P && k < P && Canonical(acc) && Canonical(addend)
    ensures HonestRow(RealRow(j, k, acc, addend))
  {
  }

  lemma {:induction false} SampleRowsHonest(j: nat, x: LimbArray, y: LimbArray, n: nat)
    requires j < P && n <= P && Canonical(x) && Canonical(y)
    ensures AllHonest(SampleRows(j, x, y, n))
  {
    hide HonestRow, RealRow, Canonical;
    if n > 0 {
      SampleRowsHonest(j, x, y, n - 1);
      RealRowHonest(j, n - 1, Accumulated(x, y, n - 1), y);
    }
  }

  lemma {:induction false} TraceRowsHonest(cases: seq<TestCase>, m: nat, repetitions: nat)
    requires m <= |cases| < P && repetitions <= P
    ensures AllHonest(TraceRows(cases, m, repetitions))
  {
    hide HonestRow, Canonical, LimbsOf;
    if m > 0 {
      TraceRowsHonest(cases, m - 1, repetitions);
      SampleRowsHonest(m - 1, LimbsOf(cases[m - 1].r0In), LimbsOf(cases[m - 1].r1In), repetitions);
    }
  }

  lemma {:induction false} ZeroRowHonest()
    ensures HonestRow(ZeroRow())
  {
  }

  lemma {:induction false} PaddedRowsHonest(cases: seq<TestCase>, repetitions: nat, padded: nat)
    requires |cases| < P && repetitions <= P && |cases| * repetitions <= padded
    ensures AllHonest(PaddedRows(cases, repetitions, padded))
    ensures AllFit(PaddedRows(cases, repetitions, padded))
  {
    hide HonestRow, TraceRows;
    TraceRowsHonest(cases, |cases|, repetitions);
    ZeroRowHonest();
    HonestFits(PaddedRows(cases, repetitions, padded));
  }

  lemma {:induction false} HonestFits(rows: seq<Row>)
    ensures AllHonest(rows) ==> AllFit(rows)
  {
  }

  lemma {:induction false} FitParts(a: seq<Row>, b: seq<Row>)
    ensures AllFit(a + b) <==> AllFit(a) && AllFit(b)
  {
    hide Fits;
    assert forall r | 0 <= r < |a| :: a[r] == (a + b)[r];
    assert forall r | 0 <= r < |b| :: b[r] == (a + b)[|a| + r];
  }

  lemma {:induction false} FitsOfHonest(row: Row)
    requires HonestRow(row)
    ensures Fits(row)
  {
  }

  lemma {:induction false} HonestRowMeets(mode: RangeCheckMode, row: Row)
    requires HonestRow(row)
    ensures Evaluate(mode, CellsOf(mode, row))
    ensures mode == Lookup ==> ChunksInTables(CellsOf(mode, row))
    ensures StepSound(CellsOf(mode, row))
  {
    hide Evaluate, HonestRange, CellsOf, RangeCells, Canonical;
    CellsReadBack(mode, row);
    RangeCellsHonest(mode, row);
    var c := CellsOf(mode, row);
    if row == ZeroRow() {
      PaddingIsFree(mode, c);
    } else {
      HonestRowEvaluates(mode, c);
    }
  }

  /** The trace of the witness generator, padding included, meets every constraint of every mode. */
  lemma {:induction false} HonestTraceMeets(mode: RangeCheckMode, cases: seq<TestCase>, repetitions: nat, padded: nat)
    requires |cases| < P && repetitions <= P && |cases| * repetitions <= padded
    ensures AllFit(PaddedRows(cases, repetitions, padded))
    ensures var cells := HonestCells(mode, PaddedRows(cases, repetitions, padded));
      && TraceMeets(mode, cells)
      && RowsSound(cells)
      && (mode == Lookup ==> forall r | 0 <= r < |cells| :: ChunksInTables(cells[r]))
  {
    hide Evaluate, HonestRow, ChunksInTables, StepSound, PaddedRows, CellsOf;
    PaddedRowsHonest(cases, repetitions, padded);
    var rows := PaddedRows(cases, repetitions, padded);
    forall r | 0 <= r < |rows|
      ensures Evaluate(mode, CellsOf(mode, rows[r])) && StepSound(CellsOf(mode, rows[r]))
      ensures mode == Lookup ==> ChunksInTables(CellsOf(mode, rows[r]))
    {
      HonestRowMeets(mode, rows[r]);
    }
  }

  // ---- The state relation of the honest trace ----

  function Indicator(b: bool): nat {
    if b then 1 else 0
  }

  function InState(row: Row): State
    requires Fits(row)
  {
    StateFromLimbs(row.sampleId, row.repIdx, row.acc, row.addend)
  }

  function OutState(row: Row): State
    requires Fits(row)
  {
    StateFromLimbs(row.sampleId, (row.repIdx + 1) % P, row.next, row.addend)
  }

  lemma {:induction false} CellStates(mode: RangeCheckMode, row: Row)
    requires Fits(row)
    ensures InputState(CellsOf(mode, row)) == InState(row)
    ensures OutputState(CellsOf(mode, row)) == OutState(row)
    ensures IsReal(CellsOf(mode, row)) == row.isReal
  {
    hide CellsOf, Canonical, RangeCells;
    CellsReadBack(mode, row);
  }

  lemma {:induction false} UsesConcat(a: seq<Cells>, b: seq<Cells>, s: State)
    ensures Uses(a + b, s) == Uses(a, s) + Uses(b, s)
    ensures Yields(a + b, s) == Yields(a, s) + Yields(b, s)
  {
    hide InputState, OutputState;
    if b == [] {
      assert a + b == a;
    } else {
      UsesConcat(a, b[..|b| - 1], s);
      assert (a + b)[..|a + b| - 1] == a + b[..|b| - 1];
    }
  }

  /** Rows joined end to end join their cells and add up their uses. */
  lemma {:induction false} HonestConcat(mode: RangeCheckMode, a: seq<Row>, b: seq<Row>, s: State)
    requires AllFit(a) && AllFit(b)
    ensures AllFit(a + b)
    ensures HonestCells(mode, a + b) == HonestCells(mode, a) + HonestCells(mode, b)
    ensures Uses(HonestCells(mode, a + b), s) == Uses(HonestCells(mode, a), s) + Uses(HonestCells(mode, b), s)
    ensures Yields(HonestCells(mode, a + b), s) == Yields(HonestCells(mode, a), s) + Yields(HonestCells(mode, b), s)
  {
    hide CellsOf, Fits, Uses, Yields;
    UsesConcat(HonestCells(mode, a), HonestCells(mode, b), s);
  }

  lemma {:induction false} HonestOne(mode: RangeCheckMode, row: Row, s: State)
    requires Fits(row)
    ensures AllFit([row])
    ensures Uses(HonestCells(mode, [row]), s) == (if InState(row) == s then row.isReal else 0)
    ensures Yields(HonestCells(mode, [row]), s) == (if OutState(row) == s then row.isReal else 0)
  {
    hide CellsOf, Fits, InState, OutState;
    assert HonestCells(mode, [row]) == [CellsOf(mode, row)];
    CellStates(mode, row);
    UsesOne(CellsOf(mode, row), s);
  }

  lemma {:induction false} UsesOne(c: Cells, s: State)
    ensures Uses([c], s) == (if InputState(c) == s then IsReal(c) else 0)
    ensures Yields([c], s) == (if OutputState(c) == s then IsReal(c) else 0)
  {
    hide InputState, OutputState;
    assert [c][..0] == [];
  }

  /** The state of a sample with limbs `x` and `y` after `k` additions. */
  function LimbState(j: nat, x: LimbArray, y: LimbArray, k: nat): State
    requires j < P && Canonical(x) && Canonical(y)
  {
    StateFromLimbs(j, k % P, Accumulated(x, y, k), y)
  }

  lemma {:induction false} RealRowStates(j: nat, x: LimbArray, y: LimbArray, k: nat)
    requires j < P && k < P && Canonical(x) && Canonical(y)
    ensures var row := RealRow(j, k, Accumulated(x, y, k), y);
      Fits(row) && row.isReal == 1 && InState(row) == LimbState(j, x, y, k) && OutState(row) == LimbState(j, x, y, k + 1)
  {
    hide SumLimbs, StateFromLimbs;
    RealRowHonest(j, k, Accumulated(x, y, k), y);
    NextRepetition(k);
    RepetitionBelow(k);
    assert Accumulated(x, y, k + 1) == SumLimbs(Accumulated(x, y, k), y);
  }

  lemma {:induction false} SampleFits(j: nat, x: LimbArray, y: LimbArray, n: nat)
    requires j < P && n <= P && Canonical(x) && Canonical(y)
    ensures AllFit(SampleRows(j, x, y, n))
  {
    SampleRowsHonest(j, x, y, n);
    HonestFits(SampleRows(j, x, y, n));
  }

  lemma {:induction false} NoUses(mode: RangeCheckMode, s: State)
    ensures AllFit([]) && HonestCells(mode, []) == []
    ensures Uses([], s) == 0 && Yields([], s) == 0
  {
  }

  /** The rows of one sample take in all but the last of its states and put out all but the first. */
  lemma {:induction false} SampleTelescopes(mode: RangeCheckMode, j: nat, x: LimbArray, y: LimbArray, n: nat, s: State)
    requires j < P && n <= P && Canonical(x) && Canonical(y)
    ensures AllFit(SampleRows(j, x, y, n))
    ensures var cells := HonestCells(mode, SampleRows(j, x, y, n));
      Uses(cells, s) + Indicator(LimbState(j, x, y, n) == s) == Yields(cells, s) + Indicator(LimbState(j, x, y, 0) == s)
  {
    hide LimbState, RealRow, Canonical, Fits, AllFit, HonestCells, Uses, Yields, Accumulated;
    SampleFits(j, x, y, n);
    if n == 0 {
      NoUses(mode, s);
    } else {
      SampleTelescopes(mode, j, x, y, n - 1, s);
      RealRowStates(j, x, y, n - 1);
      var row := RealRow(j, n - 1, Accumulated(x, y, n - 1), y);
      HonestOne(mode, row, s);
      HonestConcat(mode, SampleRows(j, x, y, n - 1), [row], s);
    }
  }

  lemma {:induction false} TraceFits(cases: seq<TestCase>, m: nat, repetitions: nat)
    requires m <= |cases| < P && repetitions <= P
    ensures AllFit(TraceRows(cases, m, repetitions))
  {
    TraceRowsHonest(cases, m, repetitions);
    HonestFits(TraceRows(cases, m, repetitions));
  }

  lemma {:induction false} CaseEnds(j: nat, t: TestCase, repetitions: nat)
    requires j < P && repetitions < P && OutputCorrect(t, repetitions)
    ensures LimbState(j, LimbsOf(t.r0In), LimbsOf(t.r1In), 0) == InitialState(j, t)
    ensures LimbState(j, LimbsOf(t.r0In), LimbsOf(t.r1In), repetitions) == FinalState(j, t, repetitions)
  {
    hide LimbsOf, FinalState, Canonical;
    EndMeansSum(j, t, repetitions);
  }

  /** Over all samples, what the real rows leave open is the public boundary. */
  lemma {:induction false} TraceTelescopes(
      mode: RangeCheckMode, cases: seq<TestCase>, m: nat, repetitions: nat, s: State)
    requires m <= |cases| && Admissible(cases, repetitions) && OutputsCorrect(cases, repetitions)
    ensures AllFit(TraceRows(cases, m, repetitions))
    ensures var cells := HonestCells(mode, TraceRows(cases, m, repetitions));
      Uses(cells, s) + Finals(cases, repetitions, m, s) == Yields(cells, s) + Initials(cases, m, s)
  {
    hide LimbState, InitialState, FinalState, LimbsOf, Canonical, OutputCorrect, SampleRows, AllFit,
      HonestCells, Uses, Yields;
    TraceFits(cases, m, repetitions);
    if m == 0 {
      NoUses(mode, s);
    } else {
      var j, t := m - 1, cases[m - 1];
      var x, y := LimbsOf(t.r0In), LimbsOf(t.r1In);
      TraceTelescopes(mode, cases, j, repetitions, s);
      SampleTelescopes(mode, j, x, y, repetitions, s);
      CaseEnds(j, t, repetitions);
      HonestConcat(mode, TraceRows(cases, j, repetitions), SampleRows(j, x, y, repetitions), s);
    }
  }

  lemma {:induction false} PaddingIsSilent(mode: RangeCheckMode, n: nat, s: State)
    ensures AllFit(ZeroRows(n))
    ensures Uses(HonestCells(mode, ZeroRows(n)), s) == 0 && Yields(HonestCells(mode, ZeroRows(n)), s) == 0
  {
    hide Fits, AllFit, InState, OutState, HonestCells, Uses, Yields;
    if n == 0 {
      assert ZeroRows(0) == [];
      NoUses(mode, s);
    } else {
      PaddingIsSilent(mode, n - 1, s);
      ZeroRowHonest();
      HonestOne(mode, ZeroRow(), s);
      HonestConcat(mode, ZeroRows(n - 1), [ZeroRow()], s);
      assert ZeroRows(n) == ZeroRows(n - 1) + [ZeroRow()];
    }
  }

  lemma {:induction false} PaddedTelescopes(
      mode: RangeCheckMode, cases: seq<TestCase>, repetitions: nat, padded: nat, s: State)
    requires Admissible(cases, repetitions) && OutputsCorrect(cases, repetitions)
    requires |cases| * repetitions <= padded
    ensures AllFit(PaddedRows(cases, repetitions, padded))
    ensures BalancedAt(HonestCells(mode, PaddedRows(cases, repetitions, padded)), cases, repetitions, s)
  {
    hide TraceRows, AllFit, HonestCells, ZeroRows, Finals, Initials, Uses, Yields;
    var pad := padded - |cases| * repetitions;
    var work, zero := TraceRows(cases, |cases|, repetitions), ZeroRows(pad);
    TraceTelescopes(mode, cases, |cases|, repetitions, s);
    PaddingIsSilent(mode, pad, s);
    HonestConcat(mode, work, zero, s);
  }

  /**
   The honest trace balances the state relation exactly when the fixture's
   outputs are the repeated sums.
   */
  lemma {:induction false} HonestTraceBalances(
      mode: RangeCheckMode, cases: seq<TestCase>, repetitions: nat, padded: nat)
    requires Admissible(cases, repetitions) && |cases| * repetitions <= padded && padded + 1 < P
    ensures AllFit(PaddedRows(cases, repetitions, padded))
    ensures StateBalance(HonestCells(mode, PaddedRows(cases, repetitions, padded)), cases, repetitions)
        <==> OutputsCorrect(cases, repetitions)
  {
    hide OutputsCorrect, PaddedRows, BalancedAt, StepSound, HonestCells;
    HonestTraceMeets(mode, cases, repetitions, padded);
    var cells := HonestCells(mode, PaddedRows(cases, repetitions, padded));
    if StateBalance(cells, cases, repetitions) {
      RunIsSound(cells, cases, repetitions);
    }
    if OutputsCorrect(cases, repetitions) {
      forall s: State ensures BalancedAt(cells, cases, repetitions, s) {
        PaddedTelescopes(mode, cases, repetitions, padded, s);
      }
    }
  }
}
