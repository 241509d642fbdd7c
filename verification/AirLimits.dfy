/**
 How long a trace the soundness of the native AIR bears.

 The state relation counts modulo `P`, so the chain argument needs fewer than
 `P - 1` rows; the range lookups count modulo `P` with nine lookups a row, so
 they need fewer than `P / 9`.  Both bounds are exact.
 */
module AirLimits {
  import opened Binary
  import opened Mersenne31
  import opened Limbs
  import opened AirConstraints
  import opened RangeChecks
  import opened AirRelations
  import opened AirSoundness
  import opened AirTrace
  import opened AirCompleteness
  import opened AirLookups

  predicate RangeChecked(mode: RangeCheckMode, rows: seq<Cells>)
    requires TraceMeets(mode, rows)
  {
    mode == Lookup ==> forall i | 0 <= i < |rows| :: ChunksInTables(rows[i])
  }

  ghost predicate Convincing(mode: RangeCheckMode, rows: seq<Cells>, cases: seq<TestCase>, repetitions: nat) {
    && Admissible(cases, repetitions)
    && TraceMeets(mode, rows)
    && RangeChecked(mode, rows)
    && StateBalance(rows, cases, repetitions)
  }

  /** No trace of `n` rows convinces of a wrong output. */
  ghost predicate SoundForLength(mode: RangeCheckMode, n: nat) {
    forall rows: seq<Cells>, cases: seq<TestCase>, repetitions: nat ::
      |rows| == n && Convincing(mode, rows, cases, repetitions) ==> OutputsCorrect(cases, repetitions)
  }

  /** One run of `P - 1` additions that starts from 1, adds 1 and claims to end in 0. */
  function FalseCase(): TestCase {
    TestCase(1, 1, seq(32, _ => 0))
  }

  /** The addition from the false end state, one repetition before the index wraps, to the initial state. */
  function WrapRow(): Row {
    RealRow(0, P - 1, LimbsOf(0), LimbsOf(1))
  }

  function WrapRows(n: nat): seq<Row> {
    seq(n, _ => WrapRow())
  }

  lemma {:induction false} ZeroBytes(n: nat)
    ensures LeValue(seq(n, _ => 0)) == 0
  {
    if n > 0 {
      ZeroBytes(n - 1);
      assert seq(n, _ => 0)[1..] == seq(n - 1, _ => 0);
    }
  }

  lemma {:induction false} FalseOutput()
    ensures HasOutput(FalseCase()) && Output(FalseCase()) == 0
    ensures !OutputCorrect(FalseCase(), P - 1)
  {
    hide Pow2;
    assert FalseCase().y[..32] == seq(32, _ => 0);
    ZeroBytes(32);
    Pow2Of12();
    Pow2Monotone(36, 256);
    Pow2Add(12, 12);
    Pow2Add(24, 12);
    SmallModulus(1 + (P - 1) * 1, Pow2(256));
  }

  lemma {:induction false} WrapRowStates()
    ensures HonestRow(WrapRow()) && WrapRow().isReal == 1
    ensures HasOutput(FalseCase())
    ensures InState(WrapRow()) == FinalState(0, FalseCase(), P - 1)
    ensures OutState(WrapRow()) == InitialState(0, FalseCase())
  {
    hide LimbsOf, LeValue, SumLimbs, Canonical;
    RealRowHonest(0, P - 1, LimbsOf(0), LimbsOf(1));
    FalseOutput();
    SumOfLimbs(0, 1);
  }

  lemma {:induction false} WrapUses(mode: RangeCheckMode, n: nat, s: State)
    ensures AllFit(WrapRows(n)) && Fits(WrapRow())
    ensures Uses(HonestCells(mode, WrapRows(n)), s) == Weight(InState(WrapRow()) == s, n)
    ensures Yields(HonestCells(mode, WrapRows(n)), s) == Weight(OutState(WrapRow()) == s, n)
  {
    hide Fits, AllFit, InState, OutState, HonestCells, Uses, Yields, WrapRow;
    WrapRowStates();
    WrapFits();
    if n == 0 {
      assert WrapRows(0) == [];
      NoUses(mode, s);
    } else {
      WrapUses(mode, n - 1, s);
      HonestOne(mode, WrapRow(), s);
      HonestConcat(mode, WrapRows(n - 1), [WrapRow()], s);
      assert WrapRows(n) == WrapRows(n - 1) + [WrapRow()];
    }
  }

  lemma {:induction false} WrapFits()
    ensures Fits(WrapRow())
  {
    WrapRowStates();
  }

  /** The cells of `P - 1` wrapping rows, padded to `n` rows. */
  function WrapTrace(n: nat): seq<Row>
    requires n + 1 >= P
  {
    WrapRows(P - 1) + ZeroRows(n + 1 - P)
  }

  lemma {:induction false} WrapTraceHonest(n: nat)
    requires n + 1 >= P
    ensures AllHonest(WrapTrace(n)) && AllFit(WrapTrace(n)) && |WrapTrace(n)| == n
  {
    hide HonestRow, WrapRow;
    WrapRowStates();
    ZeroRowHonest();
    HonestFits(WrapTrace(n));
  }

  lemma {:induction false} WrapCancels(a: bool, b: bool)
    ensures Vanishes(Weight(a, P - 1) + Indicator(a) - Weight(b, P - 1) - Indicator(b))
  {
  }

  lemma {:induction false} OneCase(t: TestCase, repetitions: nat, s: State)
    requires HasOutput(t) && 0 < repetitions < P
    ensures Initials([t], 1, s) == Indicator(InitialState(0, t) == s)
    ensures Finals([t], repetitions, 1, s) == Indicator(FinalState(0, t, repetitions) == s)
  {
    hide InitialState, FinalState;
    assert Initials([t], 0, s) == 0 && Finals([t], repetitions, 0, s) == 0;
  }

  lemma {:induction false} WrapTotals(mode: RangeCheckMode, n: nat, s: State)
    requires n + 1 >= P
    ensures AllFit(WrapTrace(n)) && Fits(WrapRow())
    ensures Uses(HonestCells(mode, WrapTrace(n)), s) == Weight(InState(WrapRow()) == s, P - 1)
    ensures Yields(HonestCells(mode, WrapTrace(n)), s) == Weight(OutState(WrapRow()) == s, P - 1)
  {
    hide AllFit, HonestCells, Uses, Yields, WrapRows, ZeroRows, InState, OutState, Fits, WrapRow, Weight;
    WrapUses(mode, P - 1, s);
    PaddingIsSilent(mode, n + 1 - P, s);
    HonestConcat(mode, WrapRows(P - 1), ZeroRows(n + 1 - P), s);
  }

  lemma {:induction false} WrapBalanced(mode: RangeCheckMode, n: nat, s: State)
    requires n + 1 >= P
    ensures AllFit(WrapTrace(n)) && Admissible([FalseCase()], P - 1)
    ensures BalancedAt(HonestCells(mode, WrapTrace(n)), [FalseCase()], P - 1, s)
  {
    hide AllFit, HonestCells, Uses, Yields, WrapTrace, InState, OutState, InitialState, FinalState, Initials,
      Finals, Vanishes, Fits, WrapRow, Weight, Indicator, FalseCase;
    WrapRowStates();
    FalseOutput();
    WrapTotals(mode, n, s);
    OneCase(FalseCase(), P - 1, s);
    WrapCancels(InState(WrapRow()) == s, OutState(WrapRow()) == s);
  }

  /** From `P - 1` rows on, some trace convinces of a wrong output. */
  lemma {:induction false} LongTraceEscapes(mode: RangeCheckMode, n: nat) returns (rows: seq<Cells>)
    requires n + 1 >= P
    ensures |rows| == n && Convincing(mode, rows, [FalseCase()], P - 1)
    ensures !OutputsCorrect([FalseCase()], P - 1)
  {
    hide WrapTrace, HonestRow, AllFit, BalancedAt, Evaluate, ChunksInTables, CellsOf, OutputCorrect, FalseCase,
      StepSound;
    WrapTraceHonest(n);
    rows := HonestCells(mode, WrapTrace(n));
    forall r | 0 <= r < n
      ensures Evaluate(mode, rows[r]) && (mode == Lookup ==> ChunksInTables(rows[r]))
    {
      HonestRowMeets(mode, WrapTrace(n)[r]);
    }
    FalseOutput();
    var cases, repetitions := [FalseCase()], P - 1;
    forall s: State ensures BalancedAt(rows, cases, repetitions, s) {
      WrapBalanced(mode, n, s);
    }
    assert !OutputCorrect(cases[0], repetitions);
  }

  /** The exact bound on the rows: both sound modes hold up to `P - 2` rows and no further. */
  lemma {:induction false} ExactRowBound(mode: RangeCheckMode, n: nat)
    requires mode != Off
    ensures SoundForLength(mode, n) <==> n + 1 < P
  {
    hide OutputsCorrect, StateBalance, TraceMeets, FalseCase;
    if n + 1 < P {
      forall rows: seq<Cells>, cases: seq<TestCase>, repetitions: nat
        | |rows| == n && Convincing(mode, rows, cases, repetitions)
        ensures OutputsCorrect(cases, repetitions)
      {
        if mode == Bits {
          BitsModeSound(rows, cases, repetitions);
        } else {
          LookupModeSound(rows, cases, repetitions);
        }
      }
    } else {
      var rows := LongTraceEscapes(mode, n);
    }
  }

  /**
   The argument system as a whole: within the row bound a run can be shown to
   hold exactly when its public outputs are the repeated sums.
   */
  lemma {:induction false} ProvableExactlyWhenTrue(mode: RangeCheckMode, cases: seq<TestCase>, repetitions: nat, n: nat)
    requires mode != Off && Admissible(cases, repetitions)
    requires |cases| * repetitions <= n && n + 1 < P
    ensures (exists rows: seq<Cells> :: |rows| == n && Convincing(mode, rows, cases, repetitions))
        <==> OutputsCorrect(cases, repetitions)
  {
    hide OutputsCorrect, StateBalance, Evaluate, PaddedRows, RowsSound, ChunksInTables, AllFit;
    ExactRowBound(mode, n);
    if OutputsCorrect(cases, repetitions) {
      HonestTraceMeets(mode, cases, repetitions, n);
      HonestTraceBalances(mode, cases, repetitions, n);
      var rows := HonestCells(mode, PaddedRows(cases, repetitions, n));
      assert |rows| == n && Convincing(mode, rows, cases, repetitions);
    }
  }

  // ---- The range lookups ----

  /** No balanced trace of `n` rows that meets the constraints has a chunk outside its table. */
  ghost predicate TablesForLength(n: nat) {
    forall rows: seq<Cells>, m: Multiplicities ::
      |rows| == n && TraceMeets(Lookup, rows) && LookupsBalance(rows, m) ==> RangeChecked(Lookup, rows)
  }

  /** A row that adds the limbs `first`, `rest`, ... to zero, with each limb as its own low chunk. */
  function ChunkRow(isReal: Felt, first: Felt, rest: Felt): (c: Cells)
    ensures |c| == TraceColumns(Lookup)
  {
    seq(57, k requires 0 <= k < 57 => ChunkRowCell(isReal, first, rest, k))
  }

  function ChunkRowCell(isReal: Felt, first: Felt, rest: Felt, k: nat): Felt {
    if k == 0 then isReal
    else if k == 12 || k == 21 || k == 39 then first
    else if 12 < k < 30 || (k > 39 && k % 2 == 1) then rest
    else 0
  }

  lemma {:induction false} ChunkRowLimbs(isReal: Felt, first: Felt, rest: Felt, i: nat)
    requires i < LIMBS
    ensures var c := ChunkRow(isReal, first, rest);
      && IsReal(c) == isReal && Acc(c)[i] == 0 && Carry(c)[i] == 0 && CarryInCell(c, i) == 0
      && Addend(c)[i] == Next(c)[i] == Lo(c, i) == (if i == 0 then first else rest) && Hi(c, i) == 0
  {
    var c := ChunkRow(isReal, first, rest);
    assert (39 + 2 * i) % 2 == 1 && (40 + 2 * i) % 2 == 0;
    assert Acc(c)[i] == c[3 + i] && Addend(c)[i] == c[12 + i] && Next(c)[i] == c[21 + i] && Carry(c)[i] == c[30 + i];
  }

  lemma {:induction false} ChunkRowMeets(isReal: Felt, first: Felt, rest: Felt)
    requires isReal <= 1
    ensures Evaluate(Lookup, ChunkRow(isReal, first, rest))
  {
    hide ChunkRow, IsReal, Acc, Addend, Next, Carry, Lo, Hi;
    var c := ChunkRow(isReal, first, rest);
    ChunkRowLimbs(isReal, first, rest, 0);
    IdempotentIsBit(isReal);
    forall i | 0 <= i < LIMBS ensures CarryConstraint(c, i) && AddConstraint(c, i) && ChunkConstraint(c, i) {
      ChunkRowLimbs(isReal, first, rest, i);
      GatedReal(isReal, 0);
    }
  }

  /** What the first `n` limbs of such a row look up. */
  lemma {:induction false} ChunkRowLookups(isReal: Felt, first: Felt, rest: Felt, n: nat, t: Table, v: Felt)
    requires n <= LIMBS
    ensures RowLookups(t, ChunkRow(isReal, first, rest), 2 * n, v)
      == (match t
          case Seq18 => (if n > 0 then Indicator(first == v) + (n - 1) * Indicator(rest == v) else 0)
          case Seq11 => (if n == LIMBS then 8 else n) * Indicator(v == 0)
          case Seq6 => if n == LIMBS then Indicator(v == 0) else 0)
    decreases n
  {
    hide ChunkRow, Lo, Hi, Chunk;
    if n > 0 {
      var c, i := ChunkRow(isReal, first, rest), n - 1;
      ChunkRowLookups(isReal, first, rest, i, t, v);
      ChunkRowLimbs(isReal, first, rest, i);
      ChunkColumns(c, i);
      assert RowLookups(t, c, 2 * n - 1, v)
          == RowLookups(t, c, 2 * i, v) + Indicator(TableOf(2 * i) == t && Chunk(c, 2 * i) == v);
      assert TableOf(2 * i) == Seq18 && TableOf(2 * i + 1) == (if i == 8 then Seq6 else Seq11);
    }
  }

  function Copies(c: Cells, n: nat): (s: seq<Cells>)
    ensures |s| == n
  {
    seq(n, _ => c)
  }

  lemma {:induction false} CopiesLookups(t: Table, c: Cells, n: nat, v: Felt)
    requires |c| == TraceColumns(Lookup)
    ensures LookupShape(Copies(c, n))
    ensures Lookups(t, Copies(c, n), v) == n * Weighted(IsReal(c), RowLookups(t, c, 18, v))
  {
    hide RowLookups, Weighted, IsReal;
    if n > 0 {
      CopiesLookups(t, c, n - 1, v);
      assert Copies(c, n)[..n - 1] == Copies(c, n - 1);
      OneMore(0, Weighted(IsReal(c), RowLookups(t, c, 18, v)), n);
    }
  }

  /** The first value that is not in the table of low chunks. */
  const OUTSIDE: Felt := 0x4_0000

  /** `P / 9`, rounded down: nine times this is `P - 1`. */
  const FULL_ROWS: nat := 238609294

  /** A trace that looks `OUTSIDE` up exactly `P` times, padded to `n` rows. */
  function EscapingRows(n: nat): (s: seq<Cells>)
    requires n > FULL_ROWS
    ensures |s| == n
  {
    Copies(ChunkRow(1, OUTSIDE, OUTSIDE), FULL_ROWS) + Copies(ChunkRow(1, OUTSIDE, 0), 1)
      + Copies(ChunkRow(0, 0, 0), n - FULL_ROWS - 1)
  }

  function EscapingMultiplicities(): (m: Multiplicities)
    ensures m.Sized()
  {
    Multiplicities(
      seq(TableSize(Seq18), v => if v == 0 then 8 else 0),
      seq(TableSize(Seq11), v => if v == 0 then 8 * (FULL_ROWS + 1) else 0),
      seq(TableSize(Seq6), v => if v == 0 then FULL_ROWS + 1 else 0))
  }

  lemma {:induction false} EscapingLookups(n: nat, t: Table, v: Felt)
    requires n > FULL_ROWS
    ensures LookupShape(EscapingRows(n))
    ensures Lookups(t, EscapingRows(n), v)
      == (match t
          case Seq18 => P * Indicator(v == OUTSIDE) + 8 * Indicator(v == 0)
          case Seq11 => 8 * (FULL_ROWS + 1) * Indicator(v == 0)
          case Seq6 => (FULL_ROWS + 1) * Indicator(v == 0))
  {
    hide Lookups, RowLookups, ChunkRow, Copies, IsReal;
    var a, b, z := ChunkRow(1, OUTSIDE, OUTSIDE), ChunkRow(1, OUTSIDE, 0), ChunkRow(0, 0, 0);
    CopiesLookups(t, a, FULL_ROWS, v);
    CopiesLookups(t, b, 1, v);
    CopiesLookups(t, z, n - FULL_ROWS - 1, v);
    LookupsConcat(t, Copies(a, FULL_ROWS), Copies(b, 1), v);
    LookupsConcat(t, Copies(a, FULL_ROWS) + Copies(b, 1), Copies(z, n - FULL_ROWS - 1), v);
    ChunkRowLookups(1, OUTSIDE, OUTSIDE, 9, t, v);
    ChunkRowLookups(1, OUTSIDE, 0, 9, t, v);
    ChunkRowLimbs(1, OUTSIDE, OUTSIDE, 0);
    ChunkRowLimbs(1, OUTSIDE, 0, 0);
    ChunkRowLimbs(0, 0, 0, 0);
    RealWeight(1, RowLookups(t, a, 18, v));
    RealWeight(1, RowLookups(t, b, 18, v));
    NoWeight(0, RowLookups(t, z, 18, v));
  }

  lemma {:induction false} EscapingBalance(n: nat)
    requires n > FULL_ROWS
    ensures LookupsBalance(EscapingRows(n), EscapingMultiplicities())
  {
    hide Lookups, EscapingRows;
    var m := EscapingMultiplicities();
    EscapingLookups(n, Seq6, 0);
    forall t: Table, v: Felt ensures LookupBalancedAt(t, EscapingRows(n), m.Of(t), v) {
      EscapingLookups(n, t, v);
    }
  }

  lemma {:induction false} EscapingMeets(n: nat)
    requires n > FULL_ROWS
    ensures TraceMeets(Lookup, EscapingRows(n)) && !RangeChecked(Lookup, EscapingRows(n))
  {
    hide Evaluate, ChunkRow, IsReal, Lo, Hi;
    ChunkRowMeets(1, OUTSIDE, OUTSIDE);
    ChunkRowMeets(1, OUTSIDE, 0);
    ChunkRowMeets(0, 0, 0);
    ChunkRowLimbs(1, OUTSIDE, OUTSIDE, 0);
    var rows := EscapingRows(n);
    assert rows[0] == ChunkRow(1, OUTSIDE, OUTSIDE);
    assert Lo(rows[0], 0) == LookupBase();
  }

  /** The exact bound on the lookups: with nine a row, they are sound up to `(P - 1) / 9` rows. */
  lemma {:induction false} ExactLookupBound(n: nat)
    ensures TablesForLength(n) <==> 9 * n < P
  {
    hide LookupsBalance, Evaluate, ChunksInTables, EscapingRows;
    if 9 * n < P {
      forall rows: seq<Cells>, m: Multiplicities
        | |rows| == n && TraceMeets(Lookup, rows) && LookupsBalance(rows, m)
        ensures RangeChecked(Lookup, rows)
      {
        forall i | 0 <= i < |rows| ensures IsReal(rows[i]) <= 1 {
          IsRealIsBit(Lookup, rows[i]);
        }
        LookupsForceTables(rows, m);
      }
    } else {
      EscapingBalance(n);
      EscapingMeets(n);
    }
  }
}
