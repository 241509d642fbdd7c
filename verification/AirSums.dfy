/**
 The random-evaluation sums of the native AIR's prover, over any field and for
 any way of combining a tuple into a field element: the claimed sum of the
 honest trace telescopes to the public boundary sum plus the lookup sum.
 */
module AirSums {
  import opened Fields
  import opened Mersenne31
  import opened Limbs
  import opened AirConstraints
  import opened AirRelations
  import opened AirSoundness
  import opened AirTrace
  import opened AirCompleteness
  import opened AirLookups

  /** The combination of each relation: one for the states and one for each table. */
  datatype Elements<!F> = Elements(state: State -> F, seq18: Felt -> F, seq11: Felt -> F, seq6: Felt -> F) {
    function Of(t: Table): Felt -> F {
      match t
      case Seq18 => seq18
      case Seq11 => seq11
      case Seq6 => seq6
    }
  }

  /** `multiplicity * (output - input) / (input * output)` */
  function StateTransitionFraction<F>(f: Field<F>, el: Elements<F>, row: Row): Fraction<F>
    requires Fits(row)
  {
    var input, output := el.state(InState(row)), el.state(OutState(row));
    Fraction(f.mul(Embed(f, row.isReal), f.add(output, f.neg(input))), f.mul(input, output))
  }

  /** `multiplicity * (hi + lo) / (lo * hi)` */
  function LookupRangeFraction<F>(f: Field<F>, el: Elements<F>, i: nat, row: Row): Fraction<F>
    requires Fits(row) && i < LIMBS
  {
    var (lo, hi) := SplitLookupChunks(i, row.next[i]);
    var loDenom, hiDenom := el.seq18(lo), el.Of(HighTable(i))(hi);
    Fraction(f.mul(Embed(f, row.isReal), f.add(hiDenom, loDenom)), f.mul(loDenom, hiDenom))
  }

  function MainInteractionBatches(mode: RangeCheckMode): nat {
    if mode == Lookup then 1 + LIMBS else 1
  }

  function MainBatchedFraction<F>(f: Field<F>, el: Elements<F>, batch: nat, row: Row): Fraction<F>
    requires Fits(row) && batch <= LIMBS
  {
    if batch == 0 then StateTransitionFraction(f, el, row) else LookupRangeFraction(f, el, batch - 1, row)
  }

  /** The sum of one batch over the rows. */
  function BatchSum<F>(f: Field<F>, el: Elements<F>, batch: nat, rows: seq<Row>): F
    requires AllFit(rows) && batch <= LIMBS
  {
    if rows == [] then f.zero
    else f.add(BatchSum(f, el, batch, rows[..|rows| - 1]),
               Value(f, MainBatchedFraction(f, el, batch, rows[|rows| - 1])))
  }

  /** The sum of the first `n` batches. */
  function BatchesSum<F>(f: Field<F>, el: Elements<F>, n: nat, rows: seq<Row>): F
    requires AllFit(rows) && n <= LIMBS + 1
  {
    if n == 0 then f.zero else f.add(BatchesSum(f, el, n - 1, rows), BatchSum(f, el, n - 1, rows))
  }

  function MainClaimedSum<F>(f: Field<F>, el: Elements<F>, mode: RangeCheckMode, rows: seq<Row>): F
    requires AllFit(rows)
  {
    BatchesSum(f, el, MainInteractionBatches(mode), rows)
  }

  function BoundaryTerm<F>(f: Field<F>, el: Elements<F>, j: nat, t: TestCase, repetitions: nat): F
    requires j < P && HasOutput(t) && repetitions < P
  {
    f.add(f.inv(el.state(InitialState(j, t))), f.neg(f.inv(el.state(FinalState(j, t, repetitions)))))
  }

  /** The public boundary sum over the first `m` cases. */
  function BoundarySum<F>(f: Field<F>, el: Elements<F>, cases: seq<TestCase>, m: nat, repetitions: nat): F
    requires m <= |cases| < P && repetitions < P && forall j | 0 <= j < m :: HasOutput(cases[j])
  {
    if m == 0 then f.zero
    else f.add(BoundarySum(f, el, cases, m - 1, repetitions), BoundaryTerm(f, el, m - 1, cases[m - 1], repetitions))
  }

  /** The first `n` entries of a table, each counted and inverted. */
  function SeqSum<F>(f: Field<F>, combine: Felt -> F, counts: seq<nat>, n: nat): F
    requires n <= |counts| && n < P
  {
    if n == 0 then f.zero
    else f.add(SeqSum(f, combine, counts, n - 1), f.mul(Embed(f, counts[n - 1]), f.inv(combine(n - 1))))
  }

  function TableSum<F>(f: Field<F>, el: Elements<F>, c: Counts, t: Table): F
    requires c.Sized()
  {
    SeqSum(f, el.Of(t), c.Of(t), TableSize(t))
  }

  function LookupSum<F>(f: Field<F>, el: Elements<F>, c: Counts): F
    requires c.Sized()
  {
    f.add(f.add(TableSum(f, el, c, Seq18), TableSum(f, el, c, Seq11)), TableSum(f, el, c, Seq6))
  }

  /** No combination that the real rows need vanishes. */
  ghost predicate Defined<F(!new)>(f: Field<F>, el: Elements<F>, mode: RangeCheckMode, rows: seq<Row>)
    requires AllFit(rows)
  {
    && (forall r | 0 <= r < |rows| :: rows[r].isReal == 1 ==>
          el.state(InState(rows[r])) != f.zero && el.state(OutState(rows[r])) != f.zero)
    && (mode == Lookup ==> TablesDefined(f, el))
  }

  ghost predicate TablesDefined<F(!new)>(f: Field<F>, el: Elements<F>) {
    forall t: Table, v: nat | v < TableSize(t) :: el.Of(t)(v) != f.zero
  }

  // ---- One row ----

  lemma {:induction false} EmbedBit<F(!new)>(f: Field<F>)
    requires Lawful(f)
    ensures Embed(f, 0) == f.zero && Embed(f, 1) == f.one
  {
    hide Lawful;
    assert Embed(f, 1) == f.add(Embed(f, 0), f.one);
    AddLaws(f, f.one, f.one, f.one);
  }

  /** A real row contributes `1/input - 1/output`. */
  lemma {:induction false} RealStateValue<F(!new)>(f: Field<F>, el: Elements<F>, row: Row)
    requires Lawful(f) && Fits(row) && row.isReal == 1
    requires el.state(InState(row)) != f.zero && el.state(OutState(row)) != f.zero
    ensures Value(f, StateTransitionFraction(f, el, row))
         == f.add(f.inv(el.state(InState(row))), f.neg(f.inv(el.state(OutState(row)))))
  {
    hide Lawful, InState, OutState, Fits;
    var a, b := el.state(InState(row)), el.state(OutState(row));
    EmbedBit(f);
    MulLaws(f, f.add(b, f.neg(a)), f.zero, f.zero);
    FractionDifference(f, a, b);
  }

  /** A zero row contributes nothing to any batch. */
  lemma {:induction false} ZeroValue<F(!new)>(f: Field<F>, el: Elements<F>, batch: nat, row: Row)
    requires Lawful(f) && Fits(row) && row.isReal == 0 && batch <= LIMBS
    ensures Value(f, MainBatchedFraction(f, el, batch, row)) == f.zero
  {
    hide Lawful, InState, OutState, Fits, SplitLookupChunks;
    EmbedBit(f);
    var q := MainBatchedFraction(f, el, batch, row);
    if batch == 0 {
      MulZero(f, f.add(el.state(OutState(row)), f.neg(el.state(InState(row)))));
    } else {
      var (lo, hi) := SplitLookupChunks(batch - 1, row.next[batch - 1]);
      MulZero(f, f.add(el.Of(HighTable(batch - 1))(hi), el.seq18(lo)));
    }
    MulZero(f, f.inv(q.denominator));
  }

  /** What limb `i` of a row adds to the lookup sum: `1/lo + 1/hi`. */
  function LimbLookup<F>(f: Field<F>, el: Elements<F>, i: nat, row: Row): F
    requires Fits(row) && i < LIMBS
  {
    var (lo, hi) := SplitLookupChunks(i, row.next[i]);
    f.add(f.inv(el.seq18(lo)), f.inv(el.Of(HighTable(i))(hi)))
  }

  lemma {:induction false} RealLookupValue<F(!new)>(f: Field<F>, el: Elements<F>, i: nat, row: Row)
    requires Lawful(f) && Fits(row) && row.isReal == 1 && i < LIMBS && TablesDefined(f, el)
    ensures Value(f, LookupRangeFraction(f, el, i, row)) == LimbLookup(f, el, i, row)
  {
    hide Lawful, SplitLookupChunks, TableSize, LimbBase;
    ChunksInSize(i, row.next[i]);
    var (lo, hi) := SplitLookupChunks(i, row.next[i]);
    var a, b := el.Of(Seq18)(lo), el.Of(HighTable(i))(hi);
    EmbedBit(f);
    MulLaws(f, f.add(b, a), f.zero, f.zero);
    FractionSum(f, a, b);
  }

  // ---- The state batch telescopes ----

  lemma {:induction false} BatchSumAppend<F(!new)>(f: Field<F>, el: Elements<F>, batch: nat, rows: seq<Row>, row: Row)
    requires AllFit(rows) && Fits(row) && batch <= LIMBS
    ensures AllFit(rows + [row])
    ensures BatchSum(f, el, batch, rows + [row])
         == f.add(BatchSum(f, el, batch, rows), Value(f, MainBatchedFraction(f, el, batch, row)))
  {
    hide MainBatchedFraction, Fits;
    FitParts(rows, [row]);
    assert (rows + [row])[..|rows|] == rows;
  }

  lemma {:induction false} BatchSumConcat<F(!new)>(f: Field<F>, el: Elements<F>, batch: nat, a: seq<Row>, b: seq<Row>)
    requires Lawful(f) && AllFit(a) && AllFit(b) && batch <= LIMBS
    ensures AllFit(a + b)
    ensures BatchSum(f, el, batch, a + b) == f.add(BatchSum(f, el, batch, a), BatchSum(f, el, batch, b))
  {
    hide Lawful, MainBatchedFraction, Fits, AllFit, BatchSum;
    FitParts(a, b);
    if b == [] {
      assert a + b == a;
      NoRows(f, el, batch);
      AddLaws(f, BatchSum(f, el, batch, a), f.zero, f.zero);
    } else {
      var c, last := b[..|b| - 1], b[|b| - 1];
      assert b == c + [last] && a + b == (a + c) + [last];
      FitParts(c, [last]);
      LastFits(c, last);
      BatchSumConcat(f, el, batch, a, c);
      BatchSumAppend(f, el, batch, c, last);
      BatchSumAppend(f, el, batch, a + c, last);
      AddLaws(f, BatchSum(f, el, batch, a), BatchSum(f, el, batch, c),
              Value(f, MainBatchedFraction(f, el, batch, last)));
    }
  }

  lemma {:induction false} LastFits(rows: seq<Row>, row: Row)
    requires AllFit(rows + [row])
    ensures Fits(row)
  {
    hide Fits;
    assert (rows + [row])[|rows|] == row;
  }

  lemma {:induction false} BatchSumOne<F(!new)>(f: Field<F>, el: Elements<F>, batch: nat, row: Row)
    requires Lawful(f) && Fits(row) && batch <= LIMBS
    ensures AllFit([row]) && BatchSum(f, el, batch, [row]) == Value(f, MainBatchedFraction(f, el, batch, row))
  {
    hide Lawful, MainBatchedFraction, Fits;
    assert [row][..0] == [];
    assert BatchSum(f, el, batch, []) == f.zero;
    AddLaws(f, Value(f, MainBatchedFraction(f, el, batch, row)), f.zero, f.zero);
  }

  lemma {:induction false} PaddingSum<F(!new)>(f: Field<F>, el: Elements<F>, batch: nat, n: nat)
    requires Lawful(f) && batch <= LIMBS
    ensures AllFit(ZeroRows(n)) && BatchSum(f, el, batch, ZeroRows(n)) == f.zero
  {
    hide Lawful, MainBatchedFraction, HonestRow;
    ZeroRowHonest();
    assert Fits(ZeroRow()) by { FitsOfHonest(ZeroRow()); }
    hide Fits;
    if n > 0 {
      PaddingSum(f, el, batch, n - 1);
      ZeroValue(f, el, batch, ZeroRow());
      assert ZeroRows(n)[..n - 1] == ZeroRows(n - 1);
      AddLaws(f, f.zero, f.zero, f.zero);
    }
  }

  /** The rows of one sample add up to the difference between its first and its last state. */
  lemma {:induction false} SampleSum<F(!new)>(
      f: Field<F>, el: Elements<F>, mode: RangeCheckMode, j: nat, x: LimbArray, y: LimbArray, n: nat)
    requires Lawful(f) && j < P && n <= P && Canonical(x) && Canonical(y)
    requires AllFit(SampleRows(j, x, y, n)) && Defined(f, el, mode, SampleRows(j, x, y, n))
    ensures BatchSum(f, el, 0, SampleRows(j, x, y, n))
         == f.add(f.inv(el.state(LimbState(j, x, y, 0))), f.neg(f.inv(el.state(LimbState(j, x, y, n)))))
  {
    hide Lawful, Canonical, LimbState, RealRow, StateTransitionFraction, InState, OutState, Accumulated, Fits,
      AllFit, Defined, BatchSum;
    var start := f.inv(el.state(LimbState(j, x, y, 0)));
    if n == 0 {
      NoRows(f, el, 0);
      AddLaws(f, start, start, start);
    } else {
      var before, row := SampleRows(j, x, y, n - 1), RealRow(j, n - 1, Accumulated(x, y, n - 1), y);
      DefinedParts(f, el, mode, before, [row]);
      SampleSum(f, el, mode, j, x, y, n - 1);
      RealRowStates(j, x, y, n - 1);
      DefinedOne(f, el, mode, row);
      RealStateValue(f, el, row);
      BatchSumAppend(f, el, 0, before, row);
      Telescope(f, start, f.inv(el.state(LimbState(j, x, y, n - 1))), f.inv(el.state(LimbState(j, x, y, n))));
    }
  }

  lemma {:induction false} DefinedOne<F(!new)>(f: Field<F>, el: Elements<F>, mode: RangeCheckMode, row: Row)
    requires AllFit([row]) && Defined(f, el, mode, [row]) && Fits(row) && row.isReal == 1
    ensures el.state(InState(row)) != f.zero && el.state(OutState(row)) != f.zero
  {
    hide InState, OutState, Fits;
    assert [row][0] == row;
  }

  lemma {:induction false} DefinedParts<F(!new)>(
      f: Field<F>, el: Elements<F>, mode: RangeCheckMode, a: seq<Row>, b: seq<Row>)
    requires AllFit(a + b) && Defined(f, el, mode, a + b)
    ensures AllFit(a) && AllFit(b) && Defined(f, el, mode, a) && Defined(f, el, mode, b)
  {
    hide Fits, InState, OutState, TablesDefined;
    assert forall r | 0 <= r < |a| :: a[r] == (a + b)[r];
    assert forall r | 0 <= r < |b| :: b[r] == (a + b)[|a| + r];
  }

  /** Sample by sample, the state batch adds up to the public boundary sum. */
  lemma {:induction false} TraceSum<F(!new)>(
      f: Field<F>, el: Elements<F>, mode: RangeCheckMode, cases: seq<TestCase>, m: nat, repetitions: nat)
    requires Lawful(f) && m <= |cases| && Admissible(cases, repetitions) && OutputsCorrect(cases, repetitions)
    requires AllFit(TraceRows(cases, m, repetitions)) && Defined(f, el, mode, TraceRows(cases, m, repetitions))
    ensures BatchSum(f, el, 0, TraceRows(cases, m, repetitions)) == BoundarySum(f, el, cases, m, repetitions)
  {
    hide Lawful, Defined, AllFit, SampleRows, LimbsOf, InitialState, FinalState, LimbState, Canonical,
      OutputCorrect, BatchSum;
    if m == 0 {
      NoRows(f, el, 0);
    } else {
      var j, t := m - 1, cases[m - 1];
      var x, y := LimbsOf(t.r0In), LimbsOf(t.r1In);
      var before, own := TraceRows(cases, j, repetitions), SampleRows(j, x, y, repetitions);
      DefinedParts(f, el, mode, before, own);
      TraceSum(f, el, mode, cases, j, repetitions);
      SampleSum(f, el, mode, j, x, y, repetitions);
      CaseEnds(j, t, repetitions);
      BatchSumConcat(f, el, 0, before, own);
    }
  }

  lemma {:induction false} NoRows<F(!new)>(f: Field<F>, el: Elements<F>, batch: nat)
    requires batch <= LIMBS
    ensures AllFit([]) && BatchSum(f, el, batch, []) == f.zero
  {
  }

  // ---- The lookup batches and the counts ----

  /** The sum of the first `n` lookup batches. */
  function LookupBatches<F>(f: Field<F>, el: Elements<F>, n: nat, rows: seq<Row>): F
    requires AllFit(rows) && n <= LIMBS
  {
    if n == 0 then f.zero else f.add(LookupBatches(f, el, n - 1, rows), BatchSum(f, el, n, rows))
  }

  lemma {:induction false} SplitBatches<F(!new)>(f: Field<F>, el: Elements<F>, n: nat, rows: seq<Row>)
    requires Lawful(f) && AllFit(rows) && n <= LIMBS
    ensures BatchesSum(f, el, n + 1, rows) == f.add(BatchSum(f, el, 0, rows), LookupBatches(f, el, n, rows))
  {
    hide Lawful, BatchSum, Fits;
    var b := BatchSum(f, el, 0, rows);
    if n == 0 {
      assert BatchesSum(f, el, 1, rows) == f.add(BatchesSum(f, el, 0, rows), b);
      AddLaws(f, b, b, b);
    } else {
      SplitBatches(f, el, n - 1, rows);
      AddLaws(f, b, LookupBatches(f, el, n - 1, rows), BatchSum(f, el, n, rows));
    }
  }

  /** What the first `n` limbs of a row add to the lookup sum. */
  function RowLookup<F>(f: Field<F>, el: Elements<F>, n: nat, row: Row): F
    requires Fits(row) && n <= LIMBS
  {
    if n == 0 then f.zero else f.add(RowLookup(f, el, n - 1, row), LimbLookup(f, el, n - 1, row))
  }

  /** Summing batch by batch is summing row by row. */
  lemma {:induction false} BatchesByRow<F(!new)>(f: Field<F>, el: Elements<F>, n: nat, rows: seq<Row>, row: Row)
    requires Lawful(f) && AllFit(rows) && Fits(row) && row.isReal == 1 && TablesDefined(f, el) && n <= LIMBS
    ensures AllFit(rows + [row])
    ensures LookupBatches(f, el, n, rows + [row]) == f.add(LookupBatches(f, el, n, rows), RowLookup(f, el, n, row))
  {
    hide Lawful, BatchSum, Fits, LookupRangeFraction, LimbLookup, TablesDefined;
    if n == 0 {
      AddLaws(f, f.zero, f.zero, f.zero);
    } else {
      BatchesByRow(f, el, n - 1, rows, row);
      BatchSumOne(f, el, n, row);
      BatchSumConcat(f, el, n, rows, [row]);
      RealLookupValue(f, el, n - 1, row);
      AddSwap(f, LookupBatches(f, el, n - 1, rows), RowLookup(f, el, n - 1, row),
              BatchSum(f, el, n, rows), LimbLookup(f, el, n - 1, row));
    }
  }

  /** Counting a value once more adds its inverse to the table's sum. */
  lemma {:induction false} SeqSumBump<F(!new)>(f: Field<F>, combine: Felt -> F, s: seq<nat>, v: nat, n: nat)
    requires Lawful(f) && v < |s| && n <= |s| && n < P && v < P
    ensures SeqSum(f, combine, Bump(s, v), n)
         == (if v < n then f.add(SeqSum(f, combine, s, n), f.inv(combine(v))) else SeqSum(f, combine, s, n))
  {
    hide Lawful;
    if n > 0 {
      SeqSumBump(f, combine, s, v, n - 1);
      var x, e := f.inv(combine(n - 1)), Embed(f, s[n - 1]);
      var before := SeqSum(f, combine, s, n - 1);
      if v == n - 1 {
        MulLaws(f, x, e, f.one);
        AddLaws(f, before, f.mul(e, x), x);
      } else if v < n - 1 {
        AddLaws(f, before, f.inv(combine(v)), f.mul(e, x));
        AddLaws(f, f.inv(combine(v)), f.mul(e, x), x);
        AddLaws(f, before, f.mul(e, x), f.inv(combine(v)));
      }
    }
  }

  lemma {:induction false} ThreeSums<F(!new)>(f: Field<F>, a: F, b: F, c: F, x: F, y: F)
    requires Lawful(f)
    ensures f.add(f.add(f.add(a, x), f.add(b, y)), c) == f.add(f.add(f.add(a, b), c), f.add(x, y))
    ensures f.add(f.add(f.add(a, x), b), f.add(c, y)) == f.add(f.add(f.add(a, b), c), f.add(x, y))
  {
    hide Lawful;
    var z := f.zero;
    AddSwap(f, a, x, b, y);
    AddSwap(f, f.add(a, b), f.add(x, y), c, z);
    AddSwap(f, a, x, b, z);
    AddSwap(f, f.add(a, b), x, c, y);
    AddLaws(f, b, c, z);
    AddLaws(f, c, z, z);
    AddLaws(f, x, y, z);
    AddLaws(f, f.add(x, y), z, z);
  }

  lemma {:induction false} AddLimbSum<F(!new)>(f: Field<F>, el: Elements<F>, c: Counts, i: nat, row: Row)
    requires Lawful(f) && c.Sized() && i < LIMBS && Fits(row)
    ensures LookupSum(f, el, AddLimb(c, i, row.next[i])) == f.add(LookupSum(f, el, c), LimbLookup(f, el, i, row))
  {
    hide Lawful, SplitLookupChunks, SeqSum, Bump, TableSize;
    ChunksInSize(i, row.next[i]);
    var (lo, hi) := SplitLookupChunks(i, row.next[i]);
    SeqSumBump(f, el.seq18, c.seq18, lo, TableSize(Seq18));
    if i + 1 == LIMBS {
      SeqSumBump(f, el.seq6, c.seq6, hi, TableSize(Seq6));
    } else {
      SeqSumBump(f, el.seq11, c.seq11, hi, TableSize(Seq11));
    }
    ThreeSums(f, TableSum(f, el, c, Seq18), TableSum(f, el, c, Seq11), TableSum(f, el, c, Seq6),
              f.inv(el.seq18(lo)), f.inv(el.Of(HighTable(i))(hi)));
  }

  lemma {:induction false} AddNextSum<F(!new)>(f: Field<F>, el: Elements<F>, c: Counts, n: nat, row: Row)
    requires Lawful(f) && c.Sized() && n <= LIMBS && Fits(row)
    ensures LookupSum(f, el, AddNext(c, row.next, n)) == f.add(LookupSum(f, el, c), RowLookup(f, el, n, row))
  {
    hide Lawful, LookupSum, AddLimb, LimbLookup;
    if n == 0 {
      AddLaws(f, LookupSum(f, el, c), f.zero, f.zero);
    } else {
      AddNextSum(f, el, c, n - 1, row);
      AddLimbSum(f, el, AddNext(c, row.next, n - 1), n - 1, row);
      AddLaws(f, LookupSum(f, el, c), RowLookup(f, el, n - 1, row), LimbLookup(f, el, n - 1, row));
    }
  }

  lemma {:induction false} NoCountsSum<F(!new)>(f: Field<F>, combine: Felt -> F, s: seq<nat>, n: nat)
    requires Lawful(f) && n <= |s| && n < P && forall v | 0 <= v < |s| :: s[v] == 0
    ensures SeqSum(f, combine, s, n) == f.zero
  {
    hide Lawful;
    if n > 0 {
      NoCountsSum(f, combine, s, n - 1);
      MulZero(f, f.inv(combine(n - 1)));
      AddLaws(f, f.zero, f.zero, f.zero);
    }
  }

  lemma {:induction false} EmptySums<F(!new)>(f: Field<F>, el: Elements<F>, n: nat)
    requires Lawful(f) && n <= LIMBS
    ensures AllFit([]) && LookupBatches(f, el, n, []) == f.zero
    ensures LookupSum(f, el, NoCounts()) == f.zero
  {
    hide Lawful;
    AddLaws(f, f.zero, f.zero, f.zero);
    NoCountsSum(f, el.seq18, NoCounts().seq18, TableSize(Seq18));
    NoCountsSum(f, el.seq11, NoCounts().seq11, TableSize(Seq11));
    NoCountsSum(f, el.seq6, NoCounts().seq6, TableSize(Seq6));
    if n > 0 {
      EmptySums(f, el, n - 1);
    }
  }

  /** The row-indexed sum of the chunks is the value-indexed sum that the counts weight. */
  lemma {:induction false} LookupsExchange<F(!new)>(f: Field<F>, el: Elements<F>, rows: seq<Row>)
    requires Lawful(f) && AllFit(rows) && AllReal(rows) && TablesDefined(f, el)
    ensures LookupBatches(f, el, LIMBS, rows) == LookupSum(f, el, CountsAfter(rows))
  {
    hide Lawful, LookupBatches, LookupSum, Fits, TablesDefined, RowLookup, AddNext, NoCounts;
    if rows == [] {
      EmptySums(f, el, LIMBS);
    } else {
      var before, row := rows[..|rows| - 1], rows[|rows| - 1];
      LookupsExchange(f, el, before);
      assert rows == before + [row];
      BatchesByRow(f, el, LIMBS, before, row);
      AddNextSum(f, el, CountsAfter(before), LIMBS, row);
    }
  }

  // ---- The claimed sum ----

  lemma {:induction false} PaddedBatch<F(!new)>(f: Field<F>, el: Elements<F>, batch: nat, rows: seq<Row>, n: nat)
    requires Lawful(f) && AllFit(rows) && batch <= LIMBS
    ensures AllFit(rows + ZeroRows(n))
    ensures BatchSum(f, el, batch, rows + ZeroRows(n)) == BatchSum(f, el, batch, rows)
  {
    hide Lawful, BatchSum, AllFit;
    PaddingSum(f, el, batch, n);
    BatchSumConcat(f, el, batch, rows, ZeroRows(n));
    AddLaws(f, BatchSum(f, el, batch, rows), f.zero, f.zero);
  }

  lemma {:induction false} PaddedBatches<F(!new)>(f: Field<F>, el: Elements<F>, batches: nat, rows: seq<Row>, n: nat)
    requires Lawful(f) && AllFit(rows) && batches <= LIMBS + 1
    ensures AllFit(rows + ZeroRows(n))
    ensures BatchesSum(f, el, batches, rows + ZeroRows(n)) == BatchesSum(f, el, batches, rows)
  {
    hide Lawful, BatchSum, AllFit, ZeroRows;
    if batches == 0 {
      PaddedBatch(f, el, 0, rows, n);
    } else {
      PaddedBatches(f, el, batches - 1, rows, n);
      PaddedBatch(f, el, batches - 1, rows, n);
    }
  }

  /** The sum that the program expects: the public boundary sum plus the lookup sum. */
  function ExpectedMainSum<F>(
      f: Field<F>, el: Elements<F>, mode: RangeCheckMode, cases: seq<TestCase>, repetitions: nat, c: Counts): F
    requires Admissible(cases, repetitions) && c.Sized()
  {
    f.add(BoundarySum(f, el, cases, |cases|, repetitions), if mode == Lookup then LookupSum(f, el, c) else f.zero)
  }

  /**
   When the fixture's outputs check, the claimed sum of the honest trace is the
   expected one, so the program does not bail on a mismatch.
   */
  lemma {:induction false} ClaimedSumIsExpected<F(!new)>(
      f: Field<F>, el: Elements<F>, mode: RangeCheckMode, cases: seq<TestCase>, repetitions: nat, padded: nat)
    requires Lawful(f) && Admissible(cases, repetitions) && OutputsCorrect(cases, repetitions)
    requires |cases| * repetitions <= padded
    requires AllFit(PaddedRows(cases, repetitions, padded))
      && Defined(f, el, mode, PaddedRows(cases, repetitions, padded))
    ensures AllFit(TraceRows(cases, |cases|, repetitions))
    ensures MainClaimedSum(f, el, mode, PaddedRows(cases, repetitions, padded))
         == ExpectedMainSum(f, el, mode, cases, repetitions, CountsAfter(TraceRows(cases, |cases|, repetitions)))
  {
    hide Lawful, Defined, AllFit, AllReal, TraceRows, ZeroRows, BatchSum, BoundarySum, LookupSum, CountsAfter,
      OutputsCorrect;
    var rows, pad := TraceRows(cases, |cases|, repetitions), padded - |cases| * repetitions;
    DefinedParts(f, el, mode, rows, ZeroRows(pad));
    PaddedBatches(f, el, MainInteractionBatches(mode), rows, pad);
    TraceSum(f, el, mode, cases, |cases|, repetitions);
    if mode == Lookup {
      SplitBatches(f, el, LIMBS, rows);
      TraceIsReal(cases, |cases|, repetitions);
      DefinedTables(f, el, rows);
      LookupsExchange(f, el, rows);
    } else {
      SplitBatches(f, el, 0, rows);
    }
  }

  lemma {:induction false} DefinedTables<F(!new)>(f: Field<F>, el: Elements<F>, rows: seq<Row>)
    requires AllFit(rows) && Defined(f, el, Lookup, rows)
    ensures TablesDefined(f, el)
  {
  }
}
