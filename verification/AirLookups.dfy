/**
 The range-check lookups of the native AIR: what balanced lookups force, where
 that argument stops, and the multiplicities that the witness generator counts.
 */
module AirLookups {
  import opened Binary
  import opened Mersenne31
  import opened Limbs
  import opened AirConstraints
  import opened RangeChecks
  import opened AirRelations
  import opened AirSoundness
  import opened AirTrace
  import opened AirCompleteness

  predicate LookupShape(rows: seq<Cells>) {
    forall i | 0 <= i < |rows| :: |rows[i]| == TraceColumns(Lookup)
  }

  lemma {:induction false} RowLookupsBound(t: Table, c: Cells, n: nat, v: Felt)
    requires |c| == TraceColumns(Lookup) && n <= 9
    ensures RowLookups(t, c, 2 * n, v) <= n
    decreases n
  {
    if n > 0 {
      RowLookupsBound(t, c, n - 1, v);
      assert TableOf(2 * n - 2) == Seq18 && TableOf(2 * n - 1) != Seq18;
    }
  }

  lemma {:induction false} WeightBound(isReal: nat, n: nat)
    requires isReal <= 1
    ensures Weighted(isReal, n) <= n
  {
    assert isReal == 0 || isReal == 1;
  }

  lemma {:induction false} RealWeight(isReal: nat, n: nat)
    requires isReal == 1
    ensures Weighted(isReal, n) == n
  {
  }

  /** No value is looked up more than nine times a row. */
  lemma {:induction false} LookupsBound(t: Table, rows: seq<Cells>, v: Felt)
    requires LookupShape(rows) && BooleanRows(rows)
    ensures Lookups(t, rows, v) <= 9 * |rows|
  {
    hide Weighted;
    if rows != [] {
      WeightBound(IsReal(rows[|rows| - 1]), RowLookups(t, rows[|rows| - 1], 18, v));
      LookupsBound(t, rows[..|rows| - 1], v);
      RowLookupsBound(t, rows[|rows| - 1], 9, v);
    }
  }

  lemma {:induction false} ChunkIsCounted(t: Table, c: Cells, n: nat, p: nat)
    requires |c| == TraceColumns(Lookup) && p < n <= 18 && TableOf(p) == t
    ensures RowLookups(t, c, n, Chunk(c, p)) > 0
  {
    if p < n - 1 {
      ChunkIsCounted(t, c, n - 1, p);
    }
  }

  lemma {:induction false} LookupIsCounted(t: Table, rows: seq<Cells>, i: nat, p: nat)
    requires LookupShape(rows) && i < |rows| && IsReal(rows[i]) == 1 && p < 18 && TableOf(p) == t
    ensures Lookups(t, rows, Chunk(rows[i], p)) > 0
  {
    hide RowLookups, TableOf, Chunk, Weighted;
    if i < |rows| - 1 {
      LookupIsCounted(t, rows[..|rows| - 1], i, p);
    } else {
      ChunkIsCounted(t, rows[i], 18, p);
      RealWeight(IsReal(rows[i]), RowLookups(t, rows[i], 18, Chunk(rows[i], p)));
    }
  }

  /** The multiplicity columns of the three tables. */
  datatype Multiplicities = Multiplicities(seq18: seq<Felt>, seq11: seq<Felt>, seq6: seq<Felt>) {
    function Of(t: Table): seq<Felt> {
      match t
      case Seq18 => seq18
      case Seq11 => seq11
      case Seq6 => seq6
    }

    predicate Sized() {
      |seq18| == TableSize(Seq18) && |seq11| == TableSize(Seq11) && |seq6| == TableSize(Seq6)
    }
  }

  ghost predicate LookupsBalance(rows: seq<Cells>, m: Multiplicities) {
    && LookupShape(rows) && m.Sized()
    && forall t: Table :: LookupBalance(t, rows, m.Of(t))
  }

  /** A balanced lookup is one of a table entry, while no value can be looked up `P` times. */
  lemma {:induction false} LookupInTable(rows: seq<Cells>, m: Multiplicities, i: nat, p: nat)
    requires LookupsBalance(rows, m) && BooleanRows(rows) && 9 * |rows| < P
    requires i < |rows| && IsReal(rows[i]) == 1 && p < 18
    ensures Chunk(rows[i], p) < TableSize(TableOf(p))
  {
    hide Lookups, Chunk, Vanishes;
    var t, v := TableOf(p), Chunk(rows[i], p);
    assert LookupBalance(t, rows, m.Of(t));
    assert LookupBalancedAt(t, rows, m.Of(t), v);
    LookupsBound(t, rows, v);
    LookupIsCounted(t, rows, i, p);
    VanishesSmall(Lookups(t, rows, v));
  }

  lemma {:induction false} ChunkColumns(c: Cells, i: nat)
    requires |c| == TraceColumns(Lookup) && i < LIMBS
    ensures Chunk(c, 2 * i) == Lo(c, i) && Chunk(c, 2 * i + 1) == Hi(c, i)
    ensures TableSize(TableOf(2 * i)) == LookupBase() && TableSize(TableOf(2 * i + 1)) == HighSize(i)
  {
  }

  /** Balanced lookups put every chunk of a short enough trace in its table. */
  lemma {:induction false} LookupsForceTables(rows: seq<Cells>, m: Multiplicities)
    requires LookupsBalance(rows, m) && BooleanRows(rows) && 9 * |rows| < P
    ensures forall i | 0 <= i < |rows| :: ChunksInTables(rows[i])
  {
    hide LookupsBalance, Chunk, Lo, Hi, TableOf, TableSize;
    BalanceHasShape(rows, m);
    forall i | 0 <= i < |rows| ensures ChunksInTables(rows[i]) {
      if IsReal(rows[i]) == 1 {
        forall l | 0 <= l < LIMBS ensures Lo(rows[i], l) < LookupBase() && Hi(rows[i], l) < HighSize(l) {
          LookupInTable(rows, m, i, 2 * l);
          LookupInTable(rows, m, i, 2 * l + 1);
          ChunkColumns(rows[i], l);
        }
      }
    }
  }

  lemma {:induction false} BalanceHasShape(rows: seq<Cells>, m: Multiplicities)
    requires LookupsBalance(rows, m)
    ensures LookupShape(rows)
  {
  }

  /**
   Soundness in `Lookup` mode from the LogUp relations alone: the state relation
   and the three range relations balance in the field.
   */
  lemma {:induction false} LookupModeSoundFromBalance(
      rows: seq<Cells>, m: Multiplicities, cases: seq<TestCase>, repetitions: nat)
    requires Admissible(cases, repetitions) && 9 * |rows| < P
    requires TraceMeets(Lookup, rows)
    requires StateBalance(rows, cases, repetitions) && LookupsBalance(rows, m)
    ensures OutputsCorrect(cases, repetitions)
  {
    hide Evaluate, LookupsBalance, StateBalance, OutputsCorrect, ChunksInTables;
    forall i | 0 <= i < |rows| ensures IsReal(rows[i]) <= 1 {
      IsRealIsBit(Lookup, rows[i]);
    }
    LookupsForceTables(rows, m);
    LookupModeSound(rows, cases, repetitions);
  }

  // ---- The counts of the witness generator ----

  /** How often the real rows look up each table entry. */
  datatype Counts = Counts(seq18: seq<nat>, seq11: seq<nat>, seq6: seq<nat>) {
    function Of(t: Table): seq<nat> {
      match t
      case Seq18 => seq18
      case Seq11 => seq11
      case Seq6 => seq6
    }

    predicate Sized() {
      |seq18| == TableSize(Seq18) && |seq11| == TableSize(Seq11) && |seq6| == TableSize(Seq6)
    }
  }

  function NoCounts(): (c: Counts)
    ensures c.Sized()
  {
    Counts(seq(TableSize(Seq18), _ => 0), seq(TableSize(Seq11), _ => 0), seq(TableSize(Seq6), _ => 0))
  }

  function Bump(s: seq<nat>, v: nat): (r: seq<nat>)
    requires v < |s|
    ensures |r| == |s|
  {
    s[v := s[v] + 1]
  }

  /** The table of the high chunk of limb `i`. */
  function HighTable(i: nat): Table {
    if i + 1 == LIMBS then Seq6 else Seq11
  }

  lemma {:induction false} ChunksInSize(i: nat, value: U32)
    requires i < LIMBS && value < LimbBase(i)
    ensures var (lo, hi) := SplitLookupChunks(i, value);
      lo < TableSize(Seq18) && hi < TableSize(HighTable(i))
  {
  }

  /** Counts the two chunks of one limb. */
  function AddLimb(c: Counts, i: nat, value: U32): (r: Counts)
    requires c.Sized() && i < LIMBS && value < LimbBase(i)
    ensures r.Sized()
  {
    var (lo, hi) := SplitLookupChunks(i, value);
    if i + 1 == LIMBS then c.(seq18 := Bump(c.seq18, lo), seq6 := Bump(c.seq6, hi))
    else c.(seq18 := Bump(c.seq18, lo), seq11 := Bump(c.seq11, hi))
  }

  /** Counts the chunks of the first `n` limbs. */
  function AddNext(c: Counts, next: LimbArray, n: nat): (r: Counts)
    requires c.Sized() && n <= LIMBS && Canonical(next)
    ensures r.Sized()
  {
    if n == 0 then c else AddLimb(AddNext(c, next, n - 1), n - 1, next[n - 1])
  }

  function CountsAfter(rows: seq<Row>): (c: Counts)
    requires AllFit(rows)
    ensures c.Sized()
  {
    if rows == [] then NoCounts()
    else AddNext(CountsAfter(rows[..|rows| - 1]), rows[|rows| - 1].next, LIMBS)
  }

  lemma {:induction false} AddLimbCounts(c: Counts, i: nat, value: U32, t: Table, v: nat)
    requires c.Sized() && i < LIMBS && value < LimbBase(i) && v < TableSize(t)
    ensures var (lo, hi) := SplitLookupChunks(i, value);
      AddLimb(c, i, value).Of(t)[v] == c.Of(t)[v]
        + (if TableOf(2 * i) == t && lo == v then 1 else 0)
        + (if TableOf(2 * i + 1) == t && hi == v then 1 else 0)
  {
    hide SplitLookupChunks;
  }

  /** Counting a row limb by limb counts each of its chunk columns. */
  lemma {:induction false} AddNextCounts(row: Row, c: Counts, n: nat, t: Table, v: nat)
    requires Fits(row) && c.Sized() && n <= LIMBS && v < TableSize(t)
    ensures Canonical(row.next)
    ensures AddNext(c, row.next, n).Of(t)[v] == c.Of(t)[v] + RowLookups(t, CellsOf(Lookup, row), 2 * n, v)
  {
    hide CellsOf, AddLimb, SplitLookupChunks, TableOf;
    if n > 0 {
      AddNextCounts(row, c, n - 1, t, v);
      var cells, i := CellsOf(Lookup, row), n - 1;
      RowChunks(row, i);
      AddLimbCounts(AddNext(c, row.next, i), i, row.next[i], t, v);
      assert RowLookups(t, cells, 2 * i + 1, v)
          == RowLookups(t, cells, 2 * i, v) + (if TableOf(2 * i) == t && Chunk(cells, 2 * i) == v then 1 else 0);
    }
  }

  lemma {:induction false} RowChunks(row: Row, i: nat)
    requires Fits(row) && i < LIMBS
    ensures var c := CellsOf(Lookup, row);
      SplitLookupChunks(i, row.next[i]) == (Chunk(c, 2 * i), Chunk(c, 2 * i + 1))
  {
    hide CellsOf, SplitLookupChunks;
    CellsReadBack(Lookup, row);
    RangeCellsHonest(Lookup, row);
    assert HonestLimb(Lookup, CellsOf(Lookup, row), i);
    ChunkColumns(CellsOf(Lookup, row), i);
  }

  predicate AllReal(rows: seq<Row>) {
    forall r | 0 <= r < |rows| :: rows[r].isReal == 1
  }

  /** Table by table, the counts are the lookups of the trace. */
  lemma {:induction false} CountsAreLookups(rows: seq<Row>, t: Table, v: nat)
    requires AllFit(rows) && AllReal(rows) && v < TableSize(t)
    ensures CountsAfter(rows).Of(t)[v] == Lookups(t, HonestCells(Lookup, rows), v)
  {
    hide CellsOf, AddNext, RowLookups, Fits, TableSize, Weighted;
    if rows == [] {
      NoCountsAt(t, v);
    } else {
      var before, row := rows[..|rows| - 1], rows[|rows| - 1];
      CountsAreLookups(before, t, v);
      AddNextCounts(row, CountsAfter(before), LIMBS, t, v);
      CellStates(Lookup, row);
      RealWeight(row.isReal, RowLookups(t, CellsOf(Lookup, row), 18, v));
      var cells := HonestCells(Lookup, rows);
      assert cells[..|rows| - 1] == HonestCells(Lookup, before);
      assert cells[|rows| - 1] == CellsOf(Lookup, row);
    }
  }

  lemma {:induction false} NoCountsAt(t: Table, v: nat)
    requires v < TableSize(t)
    ensures NoCounts().Of(t)[v] == 0
  {
  }

  lemma {:induction false} LookupsConcat(t: Table, a: seq<Cells>, b: seq<Cells>, v: Felt)
    requires LookupShape(a) && LookupShape(b)
    ensures LookupShape(a + b) && Lookups(t, a + b, v) == Lookups(t, a, v) + Lookups(t, b, v)
  {
    hide RowLookups, Weighted, IsReal;
    if b == [] {
      assert a + b == a;
    } else {
      LookupsConcat(t, a, b[..|b| - 1], v);
      assert (a + b)[..|a + b| - 1] == a + b[..|b| - 1];
    }
  }

  lemma {:induction false} PaddingLooksNothingUp(t: Table, rows: seq<Cells>, v: Felt)
    requires LookupShape(rows) && (forall i | 0 <= i < |rows| :: IsReal(rows[i]) == 0)
    ensures Lookups(t, rows, v) == 0
  {
    hide RowLookups;
    if rows != [] {
      PaddingLooksNothingUp(t, rows[..|rows| - 1], v);
    }
  }

  lemma {:induction false} OutsideChunk(t: Table, c: Cells, n: nat, v: Felt)
    requires |c| == TraceColumns(Lookup) && n <= 9 && v >= TableSize(t)
    requires IsReal(c) == 1 && ChunksInTables(c)
    ensures RowLookups(t, c, 2 * n, v) == 0
  {
    hide Chunk, TableOf, TableSize, LookupBase, HighSize, Lo, Hi;
    if n > 0 {
      OutsideChunk(t, c, n - 1, v);
      ChunkColumns(c, n - 1);
      assert Lo(c, n - 1) < LookupBase() && Hi(c, n - 1) < HighSize(n - 1);
      assert RowLookups(t, c, 2 * n - 1, v) == 0;
    }
  }

  lemma {:induction false} NothingOutside(t: Table, rows: seq<Cells>, v: Felt)
    requires LookupShape(rows) && BooleanRows(rows) && v >= TableSize(t)
    requires forall i | 0 <= i < |rows| :: ChunksInTables(rows[i])
    ensures Lookups(t, rows, v) == 0
  {
    hide RowLookups, ChunksInTables, TableSize, Weighted;
    if rows != [] {
      var c := rows[|rows| - 1];
      NothingOutside(t, rows[..|rows| - 1], v);
      if IsReal(c) == 1 {
        OutsideChunk(t, c, 9, v);
      }
      NoWeight(IsReal(c), RowLookups(t, c, 18, v));
    }
  }

  lemma {:induction false} NoWeight(isReal: nat, n: nat)
    ensures isReal == 0 || n == 0 ==> Weighted(isReal, n) == 0
  {
  }

  lemma {:induction false} TraceIsReal(cases: seq<TestCase>, m: nat, repetitions: nat)
    requires m <= |cases| < P && repetitions <= P
    ensures AllReal(TraceRows(cases, m, repetitions))
  {
    hide LimbsOf, Canonical;
    if m > 0 {
      TraceIsReal(cases, m - 1, repetitions);
      SampleIsReal(m - 1, LimbsOf(cases[m - 1].r0In), LimbsOf(cases[m - 1].r1In), repetitions);
    }
  }

  lemma {:induction false} SampleIsReal(j: nat, x: LimbArray, y: LimbArray, n: nat)
    requires j < P && n <= P
    ensures AllReal(SampleRows(j, x, y, n))
  {
    hide Accumulated, SumLimbs, Carries;
    if n > 0 {
      SampleIsReal(j, x, y, n - 1);
    }
  }

  /** The counts of the witness generator, as table columns. */
  function CountColumn(s: seq<nat>): (r: seq<Felt>)
    requires forall v | 0 <= v < |s| :: s[v] < P
    ensures |r| == |s|
  {
    s
  }

  predicate CountsFit(c: Counts) {
    && (forall v | 0 <= v < |c.seq18| :: c.seq18[v] < P)
    && (forall v | 0 <= v < |c.seq11| :: c.seq11[v] < P)
    && (forall v | 0 <= v < |c.seq6| :: c.seq6[v] < P)
  }

  function Columns(c: Counts): (m: Multiplicities)
    requires c.Sized() && CountsFit(c)
    ensures m.Sized()
    ensures forall t: Table :: m.Of(t) == c.Of(t)
  {
    Multiplicities(CountColumn(c.seq18), CountColumn(c.seq11), CountColumn(c.seq6))
  }

  lemma {:induction false} CountBound(rows: seq<Row>, t: Table, v: nat)
    requires AllFit(rows) && AllReal(rows) && v < TableSize(t)
    ensures CountsAfter(rows).Of(t)[v] <= 9 * |rows|
  {
    hide Lookups, CellsOf, CountsAfter, Fits, TableSize;
    CountsAreLookups(rows, t, v);
    forall r | 0 <= r < |rows| ensures IsReal(HonestCells(Lookup, rows)[r]) <= 1 {
      CellStates(Lookup, rows[r]);
    }
    LookupsBound(t, HonestCells(Lookup, rows), v);
  }

  lemma {:induction false} TraceCountsFit(rows: seq<Row>)
    requires AllFit(rows) && AllReal(rows) && 9 * |rows| < P
    ensures CountsFit(CountsAfter(rows))
  {
    hide CountsAfter, AllFit, TableSize;
    var c := CountsAfter(rows);
    forall t: Table, v | 0 <= v < TableSize(t) ensures c.Of(t)[v] < P {
      CountBound(rows, t, v);
    }
    assert c.seq18 == c.Of(Seq18) && c.seq11 == c.Of(Seq11) && c.seq6 == c.Of(Seq6);
  }

  lemma {:induction false} PaddedLookups(cases: seq<TestCase>, repetitions: nat, padded: nat, t: Table, v: nat)
    requires |cases| < P && repetitions <= P && |cases| * repetitions <= padded && v < TableSize(t)
    ensures AllFit(TraceRows(cases, |cases|, repetitions)) && AllFit(PaddedRows(cases, repetitions, padded))
    ensures Lookups(t, HonestCells(Lookup, PaddedRows(cases, repetitions, padded)), v)
         == CountsAfter(TraceRows(cases, |cases|, repetitions)).Of(t)[v]
  {
    hide Lookups, CountsAfter, TraceRows, AllReal, TableSize, Fits, CellsOf, IsReal;
    var pad := padded - |cases| * repetitions;
    var work, zero := TraceRows(cases, |cases|, repetitions), ZeroRows(pad);
    PaddedRowsHonest(cases, repetitions, padded);
    TraceFits(cases, |cases|, repetitions);
    TraceIsReal(cases, |cases|, repetitions);
    CountsAreLookups(work, t, v);
    ZeroRowHonest();
    assert AllFit(zero);
    var cells := HonestCells(Lookup, zero);
    forall r | 0 <= r < |cells| ensures IsReal(cells[r]) == 0 {
      CellStates(Lookup, ZeroRow());
    }
    PaddingLooksNothingUp(t, cells, v);
    LookupsConcat(t, HonestCells(Lookup, work), cells, v);
    assert HonestCells(Lookup, PaddedRows(cases, repetitions, padded)) == HonestCells(Lookup, work) + cells;
  }

  /** The counted multiplicities balance the lookups of the honest trace. */
  lemma {:induction false} HonestLookupsBalance(cases: seq<TestCase>, repetitions: nat, padded: nat)
    requires |cases| < P && repetitions <= P && |cases| * repetitions <= padded
    requires 9 * (|cases| * repetitions) < P
    ensures AllFit(TraceRows(cases, |cases|, repetitions)) && AllFit(PaddedRows(cases, repetitions, padded))
    ensures CountsFit(CountsAfter(TraceRows(cases, |cases|, repetitions)))
    ensures LookupsBalance(HonestCells(Lookup, PaddedRows(cases, repetitions, padded)),
                           Columns(CountsAfter(TraceRows(cases, |cases|, repetitions))))
  {
    hide Lookups, CountsAfter, TraceRows, PaddedRows, AllReal, AllFit, TableSize, CellsOf, IsReal,
      ChunksInTables, Evaluate, StepSound, CountsFit, Columns, RowsSound, HonestCells;
    var work := TraceRows(cases, |cases|, repetitions);
    HonestTraceMeets(Lookup, cases, repetitions, padded);
    TraceFits(cases, |cases|, repetitions);
    TraceIsReal(cases, |cases|, repetitions);
    TraceCountsFit(work);
    var cells, m := HonestCells(Lookup, PaddedRows(cases, repetitions, padded)), Columns(CountsAfter(work));
    BooleanFromSound(cells);
    forall t: Table, v: Felt ensures LookupBalancedAt(t, cells, m.Of(t), v) {
      if v < TableSize(t) {
        PaddedLookups(cases, repetitions, padded, t, v);
      } else {
        NothingOutside(t, cells, v);
      }
    }
  }
}
