/**
 The witness generator of the native AIR: the rows of the honest trace, their
 column layout, the lookup counts and the packed-row iteration.
 */
module AirTrace {
  import opened Binary
  import opened Mersenne31
  import opened Limbs
  import opened AirConstraints
  import opened RangeChecks
  import opened AirRelations

  const LANE_COUNT: nat := 16

  datatype Row = Row(
    isReal: U32,
    sampleId: U32,
    repIdx: U32,
    acc: LimbArray,
    addend: LimbArray,
    next: LimbArray,
    carry: LimbArray
  )

  function ZeroLimbs(): LimbArray {
    [0, 0, 0, 0, 0, 0, 0, 0, 0]
  }

  function ZeroRow(): Row {
    Row(0, 0, 0, ZeroLimbs(), ZeroLimbs(), ZeroLimbs(), ZeroLimbs())
  }

  function ZeroRows(n: nat): seq<Row> {
    seq(n, _ => ZeroRow())
  }

  function RealRow(j: nat, k: nat, acc: LimbArray, addend: LimbArray): Row
    requires j < P && k < P
  {
    Row(1, j, k, acc, addend, SumLimbs(acc, addend), Carries(acc, addend))
  }

  /** The first `n` rows of sample `j`. */
  function SampleRows(j: nat, x: LimbArray, y: LimbArray, n: nat): (s: seq<Row>)
    requires j < P && n <= P
    ensures |s| == n
  {
    if n == 0 then [] else SampleRows(j, x, y, n - 1) + [RealRow(j, n - 1, Accumulated(x, y, n - 1), y)]
  }

  function CaseRows(j: nat, t: TestCase, repetitions: nat): seq<Row>
    requires j < P && repetitions <= P
  {
    SampleRows(j, LimbsOf(t.r0In), LimbsOf(t.r1In), repetitions)
  }

  /** The rows of the first `m` samples. */
  function TraceRows(cases: seq<TestCase>, m: nat, repetitions: nat): (s: seq<Row>)
    requires m <= |cases| < P && repetitions <= P
    ensures |s| == m * repetitions
  {
    if m == 0 then [] else TraceRows(cases, m - 1, repetitions) + CaseRows(m - 1, cases[m - 1], repetitions)
  }

  /** The whole trace: the real rows, then zero rows up to the padded length. */
  function PaddedRows(cases: seq<TestCase>, repetitions: nat, padded: nat): (s: seq<Row>)
    requires |cases| < P && repetitions <= P && |cases| * repetitions <= padded
    ensures |s| == padded
  {
    TraceRows(cases, |cases|, repetitions) + ZeroRows(padded - |cases| * repetitions)
  }

  // ---- Column layout ----

  predicate Fits(row: Row) {
    && row.isReal < P && row.sampleId < P && row.repIdx < P
    && Canonical(row.acc) && Canonical(row.addend) && Canonical(row.next)
    && forall i | 0 <= i < LIMBS :: row.carry[i] < P
  }

  function FeltLimbs(s: LimbArray): (r: seq<Felt>)
    requires forall i | 0 <= i < LIMBS :: s[i] < P
  {
    s
  }

  /** The bit columns of the first `n` limbs, limb after limb. */
  function GroupBits(limbs: LimbArray, n: nat): (s: seq<Felt>)
    requires n <= LIMBS
    ensures |s| == (if n == LIMBS then 256 else 29 * n)
  {
    if n == 0 then [] else GroupBits(limbs, n - 1) + LimbBitCells(limbs[n - 1], LimbBits(n - 1))
  }

  /** The chunk columns of the first `n` limbs: low, high, low, high, and so on. */
  function ChunkCells(limbs: LimbArray, n: nat): (s: seq<Felt>)
    requires n <= LIMBS && Canonical(limbs)
    ensures |s| == 2 * n
  {
    if n == 0 then []
    else
      var (lo, hi) := SplitLookupChunks(n - 1, limbs[n - 1]);
      ChunkCells(limbs, n - 1) + [lo, hi]
  }

  function RangeCells(mode: RangeCheckMode, row: Row): (s: seq<Felt>)
    requires Fits(row)
    ensures |s| == TraceColumns(mode) - 39
  {
    match mode
    case Off => []
    case Bits => GroupBits(row.acc, LIMBS) + GroupBits(row.addend, LIMBS) + GroupBits(row.next, LIMBS)
    case Lookup => ChunkCells(row.next, LIMBS)
  }

  /** The cells of a row, in the order the columns are written. */
  function CellsOf(mode: RangeCheckMode, row: Row): (c: Cells)
    requires Fits(row)
    ensures |c| == TraceColumns(mode)
  {
    [row.isReal, row.sampleId, row.repIdx] + FeltLimbs(row.acc) + FeltLimbs(row.addend)
      + FeltLimbs(row.next) + FeltLimbs(row.carry) + RangeCells(mode, row)
  }

  /** Reading the columns in the order of the constraints gives back the fields of the row. */
  lemma {:induction false} CellsReadBack(mode: RangeCheckMode, row: Row)
    requires Fits(row)
    ensures var c := CellsOf(mode, row);
      && IsReal(c) == row.isReal && SampleId(c) == row.sampleId && RepIdx(c) == row.repIdx
      && Acc(c) == row.acc && Addend(c) == row.addend && Next(c) == row.next && Carry(c) == row.carry
      && c[39..] == RangeCells(mode, row)
  {
    hide RangeCells, Fits, Canonical;
  }

  lemma {:induction false} GroupBitsAt(limbs: LimbArray, n: nat, i: nat)
    requires i < n <= LIMBS
    ensures 29 * i + LimbBits(i) <= |GroupBits(limbs, n)|
    ensures GroupBits(limbs, n)[29 * i..29 * i + LimbBits(i)] == LimbBitCells(limbs[i], LimbBits(i))
  {
    hide LimbBitCells;
    if i < n - 1 {
      GroupBitsAt(limbs, n - 1, i);
    }
  }

  lemma {:induction false} ChunkCellsAt(limbs: LimbArray, n: nat, i: nat)
    requires i < n <= LIMBS && Canonical(limbs)
    ensures SplitLookupChunks(i, limbs[i]) == (ChunkCells(limbs, n)[2 * i], ChunkCells(limbs, n)[2 * i + 1])
  {
    hide SplitLookupChunks;
    if i < n - 1 {
      ChunkCellsAt(limbs, n - 1, i);
    }
  }

  lemma {:induction false} BitCellsOf(row: Row, g: nat, i: nat)
    requires Fits(row) && g < 3 && i < LIMBS
    ensures BitCells(CellsOf(Bits, row), g, i)
         == LimbBitCells(if g == 0 then row.acc[i] else if g == 1 then row.addend[i] else row.next[i], LimbBits(i))
  {
    hide GroupBits, LimbBitCells, CellsOf, Fits, Canonical;
    CellsReadBack(Bits, row);
    var c, r := CellsOf(Bits, row), RangeCells(Bits, row);
    var limbs := if g == 0 then row.acc else if g == 1 then row.addend else row.next;
    GroupBitsAt(limbs, LIMBS, i);
    assert r[256 * g..256 * g + 256] == GroupBits(limbs, LIMBS);
    assert BitCells(c, g, i) == r[256 * g..256 * g + 256][29 * i..29 * i + LimbBits(i)];
  }

  /** The range-check columns hold the bits or the chunks of the right limbs. */
  lemma {:induction false} RangeCellsHonest(mode: RangeCheckMode, row: Row)
    requires Fits(row)
    ensures HonestRange(mode, CellsOf(mode, row))
  {
    hide CellsOf, LimbBitCells, SplitLookupChunks, Fits, BitCells;
    CellsReadBack(mode, row);
    var c := CellsOf(mode, row);
    forall i | 0 <= i < LIMBS ensures HonestLimb(mode, c, i) {
      match mode
      case Off =>
      case Bits =>
        BitCellsOf(row, 0, i);
        BitCellsOf(row, 1, i);
        BitCellsOf(row, 2, i);
      case Lookup =>
        NextIsCanonical(row);
        ChunkCellsAt(row.next, LIMBS, i);
        assert c[39 + 2 * i] == c[39..][2 * i] && c[40 + 2 * i] == c[39..][2 * i + 1];
    }
  }

  lemma {:induction false} NextIsCanonical(row: Row)
    requires Fits(row)
    ensures Canonical(row.next)
  {
  }
}
