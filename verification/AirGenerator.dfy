/**
 The witness generator's loops: writing the trace columns, counting lookups and
 visiting the rows in packs of sixteen.
 */
module AirGenerator {
  import opened Binary
  import opened Wrappers
  import opened Mersenne31
  import opened Limbs
  import opened AirConstraints
  import opened RangeChecks
  import opened AirRelations
  import opened AirTrace
  import opened AirCompleteness
  import opened AirLookups

  /** The first columns of row `rowIdx` hold `cells`. */
  predicate Holds(cols: array2<Felt>, rowIdx: nat, cells: seq<Felt>)
    reads cols
  {
    && |cells| <= cols.Length0 && rowIdx < cols.Length1
    && forall c | 0 <= c < |cells| :: cols[c, rowIdx] == cells[c]
  }

  lemma {:induction false} LowBit(x: nat)
    ensures BitAnd(x, 1) == x % 2
  {
    assert Pow2(1) == 2 * Pow2(0) == 2;
    MaskIsMod(x, 1);
  }

  /** Sets the next column of a row; `cells` are the columns before it. */
  method SetCol(cols: array2<Felt>, col: nat, row: nat, value: Felt, ghost cells: seq<Felt>)
    requires col < cols.Length0 && |cells| == col && Holds(cols, row, cells)
    modifies cols
    ensures Holds(cols, row, cells + [value])
    ensures forall c, r | 0 <= c < cols.Length0 && 0 <= r < cols.Length1 && r != row :: cols[c, r] == old(cols[c, r])
  {
    cols[col, row] := value;
  }

  method WriteLimbs(cols: array2<Felt>, start: nat, rowIdx: nat, limbs: LimbArray, ghost cells: seq<Felt>)
    returns (col: nat)
    requires start + 9 <= cols.Length0 && |cells| == start && Holds(cols, rowIdx, cells)
    requires forall i | 0 <= i < LIMBS :: limbs[i] < P
    modifies cols
    ensures col == start + 9 && Holds(cols, rowIdx, cells + FeltLimbs(limbs))
    ensures forall c, r | 0 <= c < cols.Length0 && 0 <= r < cols.Length1 && r != rowIdx :: cols[c, r] == old(cols[c, r])
  {
    col := start;
    ghost var own := FeltLimbs(limbs);
    for i := 0 to LIMBS
      invariant col == start + i && Holds(cols, rowIdx, cells + own[..i])
      invariant forall c, r | 0 <= c < cols.Length0 && 0 <= r < cols.Length1 && r != rowIdx ::
        cols[c, r] == old(cols[c, r])
    {
      SetCol(cols, col, rowIdx, limbs[i], cells + own[..i]);
      assert cells + own[..i + 1] == cells + own[..i] + [limbs[i]];
      col := col + 1;
    }
    assert own[..9] == own;
  }

  method WriteOneLimb(cols: array2<Felt>, start: nat, rowIdx: nat, limb: U32, w: nat, ghost cells: seq<Felt>)
    requires start + w <= cols.Length0 && |cells| == start && Holds(cols, rowIdx, cells)
    modifies cols
    ensures Holds(cols, rowIdx, cells + LimbBitCells(limb, w))
    ensures forall c, r | 0 <= c < cols.Length0 && 0 <= r < cols.Length1 && r != rowIdx :: cols[c, r] == old(cols[c, r])
  {
    hide Pow2;
    ghost var own := LimbBitCells(limb, w);
    for bitIdx := 0 to w
      invariant Holds(cols, rowIdx, cells + own[..bitIdx])
      invariant forall c, r | 0 <= c < cols.Length0 && 0 <= r < cols.Length1 && r != rowIdx ::
        cols[c, r] == old(cols[c, r])
    {
      LowBit(limb / Pow2(bitIdx));
      SetCol(cols, start + bitIdx, rowIdx, BitAnd(limb / Pow2(bitIdx), 1), cells + own[..bitIdx]);
      assert cells + own[..bitIdx + 1] == cells + own[..bitIdx] + [own[bitIdx]];
    }
    assert own[..w] == own;
  }

  method WriteLimbBits(cols: array2<Felt>, start: nat, rowIdx: nat, limbs: LimbArray, ghost cells: seq<Felt>)
    returns (col: nat)
    requires start + 256 <= cols.Length0 && |cells| == start && Holds(cols, rowIdx, cells)
    modifies cols
    ensures col == start + 256 && Holds(cols, rowIdx, cells + GroupBits(limbs, LIMBS))
    ensures forall c, r | 0 <= c < cols.Length0 && 0 <= r < cols.Length1 && r != rowIdx :: cols[c, r] == old(cols[c, r])
  {
    hide LimbBitCells;
    col := start;
    for limbIdx := 0 to LIMBS
      invariant col == start + |GroupBits(limbs, limbIdx)|
      invariant Holds(cols, rowIdx, cells + GroupBits(limbs, limbIdx))
      invariant forall c, r | 0 <= c < cols.Length0 && 0 <= r < cols.Length1 && r != rowIdx ::
        cols[c, r] == old(cols[c, r])
    {
      WriteOneLimb(cols, col, rowIdx, limbs[limbIdx], LimbBits(limbIdx), cells + GroupBits(limbs, limbIdx));
      assert cells + GroupBits(limbs, limbIdx + 1)
          == cells + GroupBits(limbs, limbIdx) + LimbBitCells(limbs[limbIdx], LimbBits(limbIdx));
      col := col + LimbBits(limbIdx);
    }
  }

  method WriteLookupChunks(cols: array2<Felt>, start: nat, rowIdx: nat, next: LimbArray, ghost cells: seq<Felt>)
    returns (col: nat)
    requires start + 18 <= cols.Length0 && |cells| == start && Holds(cols, rowIdx, cells) && Canonical(next)
    modifies cols
    ensures col == start + 18 && Holds(cols, rowIdx, cells + ChunkCells(next, LIMBS))
    ensures forall c, r | 0 <= c < cols.Length0 && 0 <= r < cols.Length1 && r != rowIdx :: cols[c, r] == old(cols[c, r])
  {
    hide SplitLookupChunks;
    col := start;
    for limbIdx := 0 to LIMBS
      invariant col == start + 2 * limbIdx && Holds(cols, rowIdx, cells + ChunkCells(next, limbIdx))
      invariant forall c, r | 0 <= c < cols.Length0 && 0 <= r < cols.Length1 && r != rowIdx ::
        cols[c, r] == old(cols[c, r])
    {
      var (lo, hi) := SplitLookupChunks(limbIdx, next[limbIdx]);
      ghost var before := cells + ChunkCells(next, limbIdx);
      SetCol(cols, col, rowIdx, lo, before);
      SetCol(cols, col + 1, rowIdx, hi, before + [lo]);
      assert cells + ChunkCells(next, limbIdx + 1) == before + [lo] + [hi];
      col := col + 2;
    }
  }

  method WriteRowToCols(cols: array2<Felt>, rowIdx: nat, row: Row, mode: RangeCheckMode)
    requires cols.Length0 == TraceColumns(mode) && rowIdx < cols.Length1 && Fits(row)
    modifies cols
    ensures Holds(cols, rowIdx, CellsOf(mode, row))
    ensures forall c, r | 0 <= c < cols.Length0 && 0 <= r < cols.Length1 && r != rowIdx :: cols[c, r] == old(cols[c, r])
  {
    hide Holds, Canonical, GroupBits, ChunkCells;
    assert Holds(cols, rowIdx, []) by { HoldsNothing(cols, rowIdx); }
    assert Canonical(row.next);
    ghost var cells: seq<Felt> := [];
    SetCol(cols, 0, rowIdx, row.isReal, cells);
    cells := [row.isReal];
    SetCol(cols, 1, rowIdx, row.sampleId, cells);
    cells := cells + [row.sampleId];
    SetCol(cols, 2, rowIdx, row.repIdx, cells);
    cells := cells + [row.repIdx];
    FitsFelts(row);
    var col := WriteLimbs(cols, 3, rowIdx, row.acc, cells);
    cells := cells + FeltLimbs(row.acc);
    col := WriteLimbs(cols, col, rowIdx, row.addend, cells);
    cells := cells + FeltLimbs(row.addend);
    col := WriteLimbs(cols, col, rowIdx, row.next, cells);
    cells := cells + FeltLimbs(row.next);
    col := WriteLimbs(cols, col, rowIdx, row.carry, cells);
    cells := cells + FeltLimbs(row.carry);
    assert cells == [row.isReal, row.sampleId, row.repIdx] + FeltLimbs(row.acc) + FeltLimbs(row.addend)
                    + FeltLimbs(row.next) + FeltLimbs(row.carry);
    ghost var head := cells;
    if mode == Bits {
      col := WriteLimbBits(cols, col, rowIdx, row.acc, cells);
      cells := cells + GroupBits(row.acc, LIMBS);
      col := WriteLimbBits(cols, col, rowIdx, row.addend, cells);
      cells := cells + GroupBits(row.addend, LIMBS);
      col := WriteLimbBits(cols, col, rowIdx, row.next, cells);
      cells := cells + GroupBits(row.next, LIMBS);
    } else if mode == Lookup {
      col := WriteLookupChunks(cols, col, rowIdx, row.next, cells);
      cells := cells + ChunkCells(row.next, LIMBS);
    }
    assert cells == head + RangeCells(mode, row);
  }

  lemma {:induction false} HoldsNothing(cols: array2<Felt>, rowIdx: nat)
    requires rowIdx < cols.Length1
    ensures Holds(cols, rowIdx, [])
  {
  }

  lemma {:induction false} FitsFelts(row: Row)
    requires Fits(row)
    ensures forall i | 0 <= i < LIMBS ::
              row.acc[i] < P && row.addend[i] < P && row.next[i] < P && row.carry[i] < P
  {
  }

  // ---- Counting ----

  /** The three count arrays of the lookup tables. */
  class LookupCounts {
    const seq18: array<nat>
    const seq11: array<nat>
    const seq6: array<nat>

    ghost predicate Valid()
      reads this
    {
      && seq18.Length == TableSize(Seq18) && seq11.Length == TableSize(Seq11) && seq6.Length == TableSize(Seq6)
      && seq18 != seq11 && seq18 != seq6 && seq11 != seq6
    }

    function Contents(): (c: Counts)
      reads this, seq18, seq11, seq6
      requires Valid()
      ensures c.Sized()
    {
      Counts(seq18[..], seq11[..], seq6[..])
    }

    constructor ()
      ensures Valid() && fresh(seq18) && fresh(seq11) && fresh(seq6)
      ensures Contents() == NoCounts()
    {
      seq18 := new nat[TableSize(Seq18)](_ => 0);
      seq11 := new nat[TableSize(Seq11)](_ => 0);
      seq6 := new nat[TableSize(Seq6)](_ => 0);
    }

    method AddNextLimbs(next: LimbArray)
      requires Valid() && Canonical(next)
      modifies seq18, seq11, seq6
      ensures Valid() && Contents() == AddNext(old(Contents()), next, LIMBS)
    {
      hide SplitLookupChunks, TableSize;
      for limbIdx := 0 to LIMBS
        invariant Valid() && Contents() == AddNext(old(Contents()), next, limbIdx)
      {
        ghost var before := Contents();
        var (lo, hi) := SplitLookupChunks(limbIdx, next[limbIdx]);
        ChunksInSize(limbIdx, next[limbIdx]);
        seq18[lo] := seq18[lo] + 1;
        if limbIdx + 1 == LIMBS {
          seq6[hi] := seq6[hi] + 1;
        } else {
          seq11[hi] := seq11[hi] + 1;
        }
        assert Contents() == AddLimb(before, limbIdx, next[limbIdx]);
      }
    }
  }

  // ---- The main trace ----

  lemma {:induction false} ZeroBits(i: nat, n: nat)
    requires i < n <= LIMBS
    ensures LimbBitCells(0, LimbBits(i)) == seq(LimbBits(i), _ => 0)
  {
    hide Pow2;
    forall k | 0 <= k < LimbBits(i) ensures Bit(TestBit(0, k)) == 0 {
      ZeroOver(Pow2(k));
    }
  }

  lemma {:induction false} ZeroOver(p: nat)
    requires p > 0
    ensures 0 / p == 0
  {
  }

  lemma {:induction false} ZeroGroup(n: nat)
    requires n <= LIMBS
    ensures forall t | 0 <= t < |GroupBits(ZeroLimbs(), n)| :: GroupBits(ZeroLimbs(), n)[t] == 0
  {
    hide LimbBitCells;
    if n > 0 {
      ZeroGroup(n - 1);
      ZeroBits(n - 1, n);
    }
  }

  lemma {:induction false} ZeroChunks(n: nat)
    requires n <= LIMBS
    ensures forall t | 0 <= t < 2 * n :: ChunkCells(ZeroLimbs(), n)[t] == 0
  {
    hide SplitLookupChunks;
    if n > 0 {
      ZeroChunks(n - 1);
      ChunksAreUnique(n - 1, 0, 0, 0);
    }
  }

  /** A zero row writes zeros in every column, whatever the mode. */
  lemma {:induction false} ZeroCells(mode: RangeCheckMode, c: nat)
    requires c < TraceColumns(mode)
    ensures Fits(ZeroRow()) && CellsOf(mode, ZeroRow())[c] == 0
  {
    hide GroupBits, ChunkCells, CellsOf, Fits;
    ZeroRowHonest();
    FitsOfHonest(ZeroRow());
    ZeroGroup(LIMBS);
    ZeroChunks(LIMBS);
    CellsReadBack(mode, ZeroRow());
    var cells := CellsOf(mode, ZeroRow());
    if c >= 39 {
      assert cells[c] == cells[39..][c - 39];
    } else {
      ZeroHead(cells, c);
    }
  }

  lemma {:induction false} ZeroHead(c: Cells, k: nat)
    requires IsReal(c) == SampleId(c) == RepIdx(c) == 0 && k < 39
    requires Acc(c) == Addend(c) == Next(c) == Carry(c) == ZeroLimbs()
    ensures c[k] == 0
  {
    if 3 <= k < 12 {
      assert c[k] == Acc(c)[k - 3];
    } else if 12 <= k < 21 {
      assert c[k] == Addend(c)[k - 12];
    } else if 21 <= k < 30 {
      assert c[k] == Next(c)[k - 21];
    } else if 30 <= k {
      assert c[k] == Carry(c)[k - 30];
    }
  }

  /** The first rows of the columns hold `rows` and the others are still zero. */
  ghost predicate Written(cols: array2<Felt>, mode: RangeCheckMode, rows: seq<Row>)
    reads cols
    requires AllFit(rows)
  {
    && cols.Length0 == TraceColumns(mode) && |rows| <= cols.Length1
    && (forall r | 0 <= r < |rows| :: Holds(cols, r, CellsOf(mode, rows[r])))
    && (forall c, r | 0 <= c < cols.Length0 && |rows| <= r < cols.Length1 :: cols[c, r] == 0)
  }

  lemma {:induction false} KeepsHolding(cols: array2<Felt>, mode: RangeCheckMode, rows: seq<Row>, row: Row)
    requires AllFit(rows) && Fits(row) && AllFit(rows + [row])
    requires cols.Length0 == TraceColumns(mode) && |rows| < cols.Length1
    requires forall r | 0 <= r < |rows| :: Holds(cols, r, CellsOf(mode, rows[r]))
    requires Holds(cols, |rows|, CellsOf(mode, row))
    requires forall c, r | 0 <= c < cols.Length0 && |rows| < r < cols.Length1 :: cols[c, r] == 0
    ensures Written(cols, mode, rows + [row])
  {
    hide Holds, CellsOf, Fits;
  }

  /** Writes one row after the ones written so far. */
  method AppendRow(cols: array2<Felt>, mode: RangeCheckMode, row: Row, ghost rows: seq<Row>, rowIdx: nat)
    requires AllFit(rows) && Fits(row) && |rows| == rowIdx < cols.Length1
    requires Written(cols, mode, rows)
    modifies cols
    ensures AllFit(rows + [row]) && Written(cols, mode, rows + [row])
  {
    hide CellsOf, Fits;
    label L:
    WriteRowToCols(cols, rowIdx, row, mode);
    forall r | 0 <= r < |rows| ensures Holds(cols, r, CellsOf(mode, rows[r])) {
      assert old@L(Holds(cols, r, CellsOf(mode, rows[r])));
      assert forall c | 0 <= c < cols.Length0 :: cols[c, r] == old@L(cols[c, r]);
    }
    KeepsHolding(cols, mode, rows, row);
  }

  /** The accumulator of sample `m` before repetition `n`. */
  function AccAt(cases: seq<TestCase>, m: nat, n: nat): (s: LimbArray)
    requires m < |cases|
  {
    Accumulated(LimbsOf(cases[m].r0In), LimbsOf(cases[m].r1In), n)
  }

  function RowAt(cases: seq<TestCase>, m: nat, n: nat): Row
    requires m < |cases| < P && n < P
  {
    RealRow(m, n, AccAt(cases, m, n), LimbsOf(cases[m].r1In))
  }

  /** The rows of the trace before repetition `n` of sample `m`. */
  function RowsAt(cases: seq<TestCase>, repetitions: nat, m: nat, n: nat): (s: seq<Row>)
    requires m < |cases| < P && n <= repetitions < P
    ensures |s| == m * repetitions + n
  {
    TraceRows(cases, m, repetitions) + SampleRows(m, LimbsOf(cases[m].r0In), LimbsOf(cases[m].r1In), n)
  }

  lemma {:induction false} RowsAtEnds(cases: seq<TestCase>, repetitions: nat, m: nat)
    requires m < |cases| < P && repetitions < P
    ensures RowsAt(cases, repetitions, m, 0) == TraceRows(cases, m, repetitions)
    ensures RowsAt(cases, repetitions, m, repetitions) == TraceRows(cases, m + 1, repetitions)
    ensures AccAt(cases, m, 0) == LimbsOf(cases[m].r0In)
  {
    hide LimbsOf, RealRow;
  }

  lemma {:induction false} RowsAtStep(cases: seq<TestCase>, repetitions: nat, m: nat, n: nat)
    requires m < |cases| < P && n < repetitions < P
    ensures AllFit(RowsAt(cases, repetitions, m, n)) && Fits(RowAt(cases, m, n))
    ensures RowsAt(cases, repetitions, m, n + 1) == RowsAt(cases, repetitions, m, n) + [RowAt(cases, m, n)]
    ensures AccAt(cases, m, n + 1) == RowAt(cases, m, n).next
  {
    hide Fits, Canonical, HonestRow, LimbsOf, AllFit, SumLimbs;
    var x, y := LimbsOf(cases[m].r0In), LimbsOf(cases[m].r1In);
    TraceFits(cases, m, repetitions);
    SampleFits(m, x, y, n);
    FitParts(TraceRows(cases, m, repetitions), SampleRows(m, x, y, n));
    RealRowHonest(m, n, Accumulated(x, y, n), y);
    FitsOfHonest(RowAt(cases, m, n));
  }

  /** One turn of the generator's inner loop. */
  method NextRow(sampleIdx: nat, repIdx: nat, acc: LimbArray, addend: LimbArray) returns (row: Row)
    requires sampleIdx < P && repIdx < P
    ensures row == RealRow(sampleIdx, repIdx, acc, addend)
  {
    hide SumLimbs, Carries, Canonical, LimbsValue, Pow2;
    var next, carry := AddLimbs(acc, addend);
    row := Row(1, sampleIdx, repIdx, acc, addend, next, carry);
  }

  lemma {:induction false} RowIndexBound(m: nat, cases: nat, n: nat, repetitions: nat)
    requires m < cases && n < repetitions
    ensures m * repetitions + n < cases * repetitions
    ensures (m + 1) * repetitions == m * repetitions + repetitions
  {
    assert cases * repetitions == m * repetitions + repetitions + (cases - m - 1) * repetitions;
  }

  function Arrays(counts: Option<LookupCounts>): set<object> {
    if counts.Some? then {counts.value.seq18, counts.value.seq11, counts.value.seq6} else {}
  }

  /** In `Lookup` mode the counts are those of the rows written so far. */
  ghost predicate Counted(counts: Option<LookupCounts>, mode: RangeCheckMode, rows: seq<Row>)
    requires AllFit(rows)
    reads (if counts.Some? then {counts.value} else {}) + Arrays(counts)
  {
    && (counts.Some? <==> mode == Lookup)
    && (counts.Some? ==> counts.value.Valid() && counts.value.Contents() == CountsAfter(rows))
  }

  lemma {:induction false} CountsAppend(rows: seq<Row>, row: Row)
    requires AllFit(rows) && Fits(row)
    ensures AllFit(rows + [row]) && Canonical(row.next)
    ensures CountsAfter(rows + [row]) == AddNext(CountsAfter(rows), row.next, LIMBS)
  {
    hide AddNext, NoCounts;
    assert (rows + [row])[..|rows|] == rows;
  }

  /** Writes and counts one row. */
  method StoreRow(cols: array2<Felt>, counts: Option<LookupCounts>, mode: RangeCheckMode, row: Row, rowIdx: nat,
                  ghost rows: seq<Row>)
    requires AllFit(rows) && Fits(row) && |rows| == rowIdx < cols.Length1
    requires Written(cols, mode, rows) && Counted(counts, mode, rows)
    modifies cols, Arrays(counts)
    ensures AllFit(rows + [row]) && Written(cols, mode, rows + [row]) && Counted(counts, mode, rows + [row])
  {
    hide Written, Fits, CountsAfter, AddNext, AllFit, Canonical, SplitLookupChunks;
    CountsAppend(rows, row);
    AppendRow(cols, mode, row, rows, rowIdx);
    if counts.Some? {
      counts.value.AddNextLimbs(row.next);
    }
  }

  /** Writes and counts the rows of one sample. */
  method GenerateSample(cols: array2<Felt>, counts: Option<LookupCounts>, mode: RangeCheckMode,
                        cases: seq<TestCase>, sampleIdx: nat, repetitions: nat, start: nat)
    returns (rowIdx: nat)
    requires sampleIdx < |cases| < P && repetitions < P
    requires start == sampleIdx * repetitions && |cases| * repetitions <= cols.Length1
    requires AllFit(TraceRows(cases, sampleIdx, repetitions))
    requires Written(cols, mode, TraceRows(cases, sampleIdx, repetitions))
    requires Counted(counts, mode, TraceRows(cases, sampleIdx, repetitions))
    modifies cols, Arrays(counts)
    ensures rowIdx == (sampleIdx + 1) * repetitions
    ensures AllFit(TraceRows(cases, sampleIdx + 1, repetitions))
    ensures Written(cols, mode, TraceRows(cases, sampleIdx + 1, repetitions))
    ensures Counted(counts, mode, TraceRows(cases, sampleIdx + 1, repetitions))
  {
    hide Written, Counted, Fits, AllFit, TraceRows, RowsAt, AccAt, RealRow, LimbsOf, Canonical, LimbsValue, Pow2;
    var addend := BiguintToLimbs(cases[sampleIdx].r1In);
    var acc := BiguintToLimbs(cases[sampleIdx].r0In);
    rowIdx := start;
    RowsAtEnds(cases, repetitions, sampleIdx);
    for repIdx := 0 to repetitions
      invariant rowIdx == start + repIdx && acc == AccAt(cases, sampleIdx, repIdx)
      invariant AllFit(RowsAt(cases, repetitions, sampleIdx, repIdx))
      invariant Written(cols, mode, RowsAt(cases, repetitions, sampleIdx, repIdx))
      invariant Counted(counts, mode, RowsAt(cases, repetitions, sampleIdx, repIdx))
    {
      var row := NextRow(sampleIdx, repIdx, acc, addend);
      RowsAtStep(cases, repetitions, sampleIdx, repIdx);
      RowIndexBound(sampleIdx, |cases|, repIdx, repetitions);
      StoreRow(cols, counts, mode, row, rowIdx, RowsAt(cases, repetitions, sampleIdx, repIdx));
      rowIdx := rowIdx + 1;
      acc := row.next;
    }
    OneMore(0, repetitions, sampleIdx + 1);
  }

  method GenerateMainTrace(cases: seq<TestCase>, repetitions: nat, padded: nat, mode: RangeCheckMode)
    returns (cols: array2<Felt>, counts: Option<LookupCounts>)
    requires |cases| < P && repetitions < P && |cases| * repetitions <= padded
    ensures fresh(cols) && cols.Length0 == TraceColumns(mode) && cols.Length1 == padded
    ensures AllFit(PaddedRows(cases, repetitions, padded)) && AllFit(TraceRows(cases, |cases|, repetitions))
    ensures forall r | 0 <= r < padded :: Holds(cols, r, CellsOf(mode, PaddedRows(cases, repetitions, padded)[r]))
    ensures Counted(counts, mode, TraceRows(cases, |cases|, repetitions))
  {
    hide Fits, AllFit, CellsOf, Holds, TraceRows, NoCounts;
    cols := new Felt[TraceColumns(mode), padded]((_, _) => 0);
    counts := None;
    if mode == Lookup {
      var c := new LookupCounts();
      counts := Some(c);
    }
    NoTraceRows(cases, repetitions);
    var rowIdx := 0;
    for sampleIdx := 0 to |cases|
      invariant rowIdx == sampleIdx * repetitions
      invariant counts.Some? ==> fresh(counts.value)
      invariant fresh(Arrays(counts))
      invariant AllFit(TraceRows(cases, sampleIdx, repetitions))
      invariant Written(cols, mode, TraceRows(cases, sampleIdx, repetitions))
      invariant Counted(counts, mode, TraceRows(cases, sampleIdx, repetitions))
    {
      rowIdx := GenerateSample(cols, counts, mode, cases, sampleIdx, repetitions, rowIdx);
    }
    PaddedRowsHonest(cases, repetitions, padded);
    WholeTrace(cols, mode, cases, repetitions, padded);
  }

  lemma {:induction false} NoTraceRows(cases: seq<TestCase>, repetitions: nat)
    requires |cases| < P && repetitions <= P
    ensures TraceRows(cases, 0, repetitions) == [] && AllFit([]) && CountsAfter([]) == NoCounts()
  {
  }

  lemma {:induction false} WholeTrace(
      cols: array2<Felt>, mode: RangeCheckMode, cases: seq<TestCase>, repetitions: nat, padded: nat)
    requires |cases| < P && repetitions < P && |cases| * repetitions <= padded == cols.Length1
    requires AllFit(TraceRows(cases, |cases|, repetitions)) && AllFit(PaddedRows(cases, repetitions, padded))
    requires Written(cols, mode, TraceRows(cases, |cases|, repetitions))
    ensures forall r | 0 <= r < padded :: Holds(cols, r, CellsOf(mode, PaddedRows(cases, repetitions, padded)[r]))
  {
    hide Fits, CellsOf, TraceRows;
    var n := |cases| * repetitions;
    forall r | 0 <= r < padded ensures Holds(cols, r, CellsOf(mode, PaddedRows(cases, repetitions, padded)[r])) {
      if r >= n {
        assert PaddedRows(cases, repetitions, padded)[r] == ZeroRow();
        forall c | 0 <= c < cols.Length0 ensures CellsOf(mode, ZeroRow())[c] == 0 {
          ZeroCells(mode, c);
        }
      } else {
        assert PaddedRows(cases, repetitions, padded)[r] == TraceRows(cases, |cases|, repetitions)[r];
      }
    }
  }

  // ---- Packed rows ----

  /** What the packed iteration knows after the given rows: the calls made and the lanes in progress. */
  predicate Packed(rows: seq<Row>, lanes: seq<Row>, calls: seq<(nat, seq<Row>)>) {
    && |calls| == |rows| / LANE_COUNT
    && (forall v | 0 <= v < |calls| :: calls[v] == (v, Pack(rows, v)))
    && lanes == rows[LANE_COUNT * |calls|..] + ZeroRows(LANE_COUNT - |rows| % LANE_COUNT)
  }

  /** Rows `16 * v` up to `16 * v + 15`. */
  function Pack(rows: seq<Row>, v: nat): (s: seq<Row>)
    requires LANE_COUNT * (v + 1) <= |rows|
    ensures |s| == LANE_COUNT
  {
    rows[LANE_COUNT * v..LANE_COUNT * (v + 1)]
  }

  lemma {:induction false} PackIsStable(rows: seq<Row>, row: Row, v: nat)
    requires LANE_COUNT * (v + 1) <= |rows|
    ensures Pack(rows + [row], v) == Pack(rows, v)
  {
  }

  /** Filling one more lane, and handing the lanes over once the last one is filled. */
  lemma {:induction false} PackedStep(rows: seq<Row>, lanes: seq<Row>, calls: seq<(nat, seq<Row>)>, row: Row)
    requires Packed(rows, lanes, calls)
    ensures |lanes| == LANE_COUNT
    ensures var lane, filled := |rows| % LANE_COUNT, lanes[|rows| % LANE_COUNT := row];
      if lane == LANE_COUNT - 1 then Packed(rows + [row], ZeroRows(LANE_COUNT), calls + [(|rows| / LANE_COUNT, filled)])
      else Packed(rows + [row], filled, calls)
  {
    var n := |calls|;
    var lane, filled := |rows| % LANE_COUNT, lanes[|rows| % LANE_COUNT := row];
    assert |rows| == LANE_COUNT * n + lane;
    forall v | 0 <= v < n ensures calls[v] == (v, Pack(rows + [row], v)) {
      PackIsStable(rows, row, v);
    }
    if lane == LANE_COUNT - 1 {
      assert filled == Pack(rows + [row], n);
      assert (rows + [row])[LANE_COUNT * (n + 1)..] == [];
    } else {
      assert filled == (rows + [row])[LANE_COUNT * n..] + ZeroRows(LANE_COUNT - (lane + 1));
    }
  }

  method PutLane(lanes: array<Row>, rowIdx: nat, row: Row, calls: seq<(nat, seq<Row>)>, ghost rows: seq<Row>)
    returns (made: seq<(nat, seq<Row>)>)
    requires lanes.Length == LANE_COUNT && |rows| == rowIdx && Packed(rows, lanes[..], calls)
    modifies lanes
    ensures Packed(rows + [row], lanes[..], made)
  {
    hide Packed;
    PackedStep(rows, lanes[..], calls, row);
    lanes[rowIdx % LANE_COUNT] := row;
    made := calls;
    if rowIdx % LANE_COUNT == LANE_COUNT - 1 {
      made := made + [(rowIdx / LANE_COUNT, lanes[..])];
      for i := 0 to LANE_COUNT
        invariant forall l | 0 <= l < i :: lanes[l] == ZeroRow()
      {
        lanes[i] := ZeroRow();
      }
      assert lanes[..] == ZeroRows(LANE_COUNT);
    }
  }

  /** The calls that the iteration makes: one per pack, in order. */
  function PackCalls(rows: seq<Row>, n: nat): (s: seq<(nat, seq<Row>)>)
    requires LANE_COUNT * n <= |rows|
    ensures |s| == n
  {
    seq(n, v requires 0 <= v < n => (v, Pack(rows, v)))
  }

  lemma {:induction false} TraceSnoc(cases: seq<TestCase>, repetitions: nat, n: nat, padded: nat)
    requires |cases| < P && repetitions < P && |cases| * repetitions <= n < padded
    ensures PaddedRows(cases, repetitions, padded)[..n + 1] == PaddedRows(cases, repetitions, padded)[..n] + [ZeroRow()]
  {
    hide TraceRows;
  }

  /** Visits the rows of one sample; the calls made so far cover the rows before it. */
  method PackSample(lanes: array<Row>, cases: seq<TestCase>, sampleIdx: nat, repetitions: nat,
                    start: nat, calls: seq<(nat, seq<Row>)>)
    returns (rowIdx: nat, made: seq<(nat, seq<Row>)>)
    requires sampleIdx < |cases| < P && repetitions < P && lanes.Length == LANE_COUNT
    requires start == sampleIdx * repetitions
    requires Packed(TraceRows(cases, sampleIdx, repetitions), lanes[..], calls)
    modifies lanes
    ensures rowIdx == (sampleIdx + 1) * repetitions
    ensures Packed(TraceRows(cases, sampleIdx + 1, repetitions), lanes[..], made)
  {
    hide Packed, Fits, AllFit, TraceRows, RowsAt, AccAt, RealRow, LimbsOf, Canonical, LimbsValue, Pow2;
    var addend := BiguintToLimbs(cases[sampleIdx].r1In);
    var acc := BiguintToLimbs(cases[sampleIdx].r0In);
    rowIdx, made := start, calls;
    RowsAtEnds(cases, repetitions, sampleIdx);
    for repIdx := 0 to repetitions
      invariant rowIdx == start + repIdx && acc == AccAt(cases, sampleIdx, repIdx)
      invariant Packed(RowsAt(cases, repetitions, sampleIdx, repIdx), lanes[..], made)
    {
      var row := NextRow(sampleIdx, repIdx, acc, addend);
      RowsAtStep(cases, repetitions, sampleIdx, repIdx);
      made := PutLane(lanes, rowIdx, row, made, RowsAt(cases, repetitions, sampleIdx, repIdx));
      rowIdx := rowIdx + 1;
      acc := row.next;
    }
    OneMore(0, repetitions, sampleIdx + 1);
  }

  lemma {:induction false} NothingPacked(lanes: seq<Row>)
    requires lanes == ZeroRows(LANE_COUNT)
    ensures Packed([], lanes, [])
  {
  }

  lemma {:induction false} AllPacked(rows: seq<Row>, lanes: seq<Row>, calls: seq<(nat, seq<Row>)>)
    requires Packed(rows, lanes, calls) && |rows| % LANE_COUNT == 0
    ensures LANE_COUNT * (|rows| / LANE_COUNT) <= |rows| && calls == PackCalls(rows, |rows| / LANE_COUNT)
  {
  }

  /**
   Calls back once per pack of sixteen rows, in order; the lanes of the calls,
   end to end, are the trace rows followed by zero rows.
   */
  method ForEachPackedRow(cases: seq<TestCase>, repetitions: nat, padded: nat) returns (calls: seq<(nat, seq<Row>)>)
    requires |cases| < P && repetitions < P && |cases| * repetitions <= padded && padded % LANE_COUNT == 0
    ensures calls == PackCalls(PaddedRows(cases, repetitions, padded), padded / LANE_COUNT)
    ensures 16 * |calls| == padded
    ensures forall v | 0 <= v < |calls| ::
      calls[v] == (v, PaddedRows(cases, repetitions, padded)[16 * v..16 * v + 16])
  {
    hide Packed, TraceRows, ZeroRows;
    var lanes := new Row[LANE_COUNT](_ => ZeroRow());
    calls := [];
    assert lanes[..] == ZeroRows(LANE_COUNT) by { SixteenZeros(lanes[..]); }
    NothingPacked(lanes[..]);
    NoTraceRows(cases, repetitions);
    var rowIdx := 0;
    for sampleIdx := 0 to |cases|
      invariant rowIdx == sampleIdx * repetitions
      invariant Packed(TraceRows(cases, sampleIdx, repetitions), lanes[..], calls)
    {
      rowIdx, calls := PackSample(lanes, cases, sampleIdx, repetitions, rowIdx, calls);
    }
    ghost var whole := PaddedRows(cases, repetitions, padded);
    assert whole[..rowIdx] == TraceRows(cases, |cases|, repetitions);
    while rowIdx < padded
      invariant |cases| * repetitions <= rowIdx <= padded
      invariant Packed(whole[..rowIdx], lanes[..], calls)
    {
      TraceSnoc(cases, repetitions, rowIdx, padded);
      calls := PutLane(lanes, rowIdx, ZeroRow(), calls, whole[..rowIdx]);
      rowIdx := rowIdx + 1;
    }
    assert whole[..padded] == whole;
    AllPacked(whole, lanes[..], calls);
  }

  lemma {:induction false} SixteenZeros(lanes: seq<Row>)
    requires |lanes| == LANE_COUNT && forall l | 0 <= l < LANE_COUNT :: lanes[l] == ZeroRow()
    ensures lanes == ZeroRows(LANE_COUNT)
  {
  }

  function Lanes(calls: seq<(nat, seq<Row>)>): seq<Row> {
    if calls == [] then [] else Lanes(calls[..|calls| - 1]) + calls[|calls| - 1].1
  }

  /** Every row is handed over exactly once: the packs joined in call order are the rows. */
  lemma {:induction false} LanesAreRows(rows: seq<Row>, n: nat)
    requires LANE_COUNT * n <= |rows|
    ensures Lanes(PackCalls(rows, n)) == rows[..LANE_COUNT * n]
  {
    if n > 0 {
      LanesAreRows(rows, n - 1);
      assert PackCalls(rows, n)[..n - 1] == PackCalls(rows, n - 1);
    }
  }
}
