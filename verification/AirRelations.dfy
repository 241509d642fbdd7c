/**
 The LogUp relations of the native AIR, with every random-evaluation sum read as
 its formal sum: for each tuple, the multiplicities that rows, tables and the
 public boundary give it must cancel in the field.
 */
module AirRelations {
  import opened Binary
  import opened Wrappers
  import opened Mersenne31
  import opened Limbs
  import opened AirConstraints

  /** A fixture case: the two operands and the expected final state bytes. */
  datatype TestCase = TestCase(r0In: nat, r1In: nat, y: seq<Byte>)

  datatype AirError = ShortState | OutputMismatch(index: nat)

  /** The first 32 bytes of a state, as an integer. */
  function LowRegister(y: seq<Byte>): Result<nat, AirError> {
    if |y| < 32 then Err(ShortState) else Ok(LeValue(y[..32]))
  }

  predicate HasOutput(t: TestCase) {
    |t.y| >= 32
  }

  function Output(t: TestCase): nat
    requires HasOutput(t)
  {
    LeValue(t.y[..32])
  }

  type State = seq<Felt>

  function StateFromLimbs(sampleId: Felt, repIdx: Felt, acc: LimbArray, addend: LimbArray): (s: State)
    requires Canonical(acc) && Canonical(addend)
    ensures |s| == 20 && s[0] == sampleId && s[1] == repIdx && s[2..11] == acc && s[11..20] == addend
  {
    [sampleId, repIdx] + acc + addend
  }

  function InitialState(j: nat, t: TestCase): State
    requires j < P
  {
    StateFromLimbs(j, 0, LimbsOf(t.r0In), LimbsOf(t.r1In))
  }

  function FinalState(j: nat, t: TestCase, repetitions: nat): State
    requires j < P && HasOutput(t) && repetitions < P
  {
    StateFromLimbs(j, repetitions, LimbsOf(Output(t)), LimbsOf(t.r1In))
  }

  /** The total multiplicity with which the rows take `s` out of the state relation. */
  function Uses(rows: seq<Cells>, s: State): nat {
    if rows == [] then 0
    else Uses(rows[..|rows| - 1], s) + (if InputState(rows[|rows| - 1]) == s then IsReal(rows[|rows| - 1]) else 0)
  }

  /** The total multiplicity with which the rows put `s` into the state relation. */
  function Yields(rows: seq<Cells>, s: State): nat {
    if rows == [] then 0
    else Yields(rows[..|rows| - 1], s) + (if OutputState(rows[|rows| - 1]) == s then IsReal(rows[|rows| - 1]) else 0)
  }

  /** The cases and repetition count of a run that the program accepts. */
  predicate Admissible(cases: seq<TestCase>, repetitions: nat) {
    && |cases| < P
    && 0 < repetitions < P
    && forall j | 0 <= j < |cases| :: HasOutput(cases[j])
  }

  /** How many of the first `n` cases start in `s`. */
  function Initials(cases: seq<TestCase>, n: nat, s: State): nat
    requires n <= |cases| < P
  {
    if n == 0 then 0 else Initials(cases, n - 1, s) + (if InitialState(n - 1, cases[n - 1]) == s then 1 else 0)
  }

  /** How many of the first `n` cases end in `s`. */
  function Finals(cases: seq<TestCase>, repetitions: nat, n: nat, s: State): nat
    requires n <= |cases| && Admissible(cases, repetitions)
  {
    if n == 0 then 0
    else Finals(cases, repetitions, n - 1, s)
         + (if FinalState(n - 1, cases[n - 1], repetitions) == s then 1 else 0)
  }

  /** Rows and public boundary cancel at `s`, in the field. */
  predicate BalancedAt(rows: seq<Cells>, cases: seq<TestCase>, repetitions: nat, s: State)
    requires Admissible(cases, repetitions)
  {
    Vanishes(Uses(rows, s) + Finals(cases, repetitions, |cases|, s)
             - Yields(rows, s) - Initials(cases, |cases|, s))
  }

  ghost predicate StateBalance(rows: seq<Cells>, cases: seq<TestCase>, repetitions: nat)
    requires Admissible(cases, repetitions)
  {
    forall s: State :: BalancedAt(rows, cases, repetitions, s)
  }

  // ---- Range-check tables ----

  datatype Table = Seq18 | Seq11 | Seq6

  function TableSize(t: Table): (n: nat)
    ensures n < P
  {
    match t
    case Seq18 => 0x4_0000
    case Seq11 => 2048
    case Seq6 => 64
  }

  /** The table of chunk column `p`: low and high chunks alternate, limb by limb. */
  function TableOf(p: nat): Table {
    if p % 2 == 0 then Seq18 else if p == 17 then Seq6 else Seq11
  }

  function Chunk(c: Cells, p: nat): Felt
    requires |c| == TraceColumns(Lookup) && p < 18
  {
    c[39 + p]
  }

  /** How often the first `n` chunk columns of a row look up `v` in table `t`. */
  function RowLookups(t: Table, c: Cells, n: nat, v: Felt): (r: nat)
    requires |c| == TraceColumns(Lookup) && n <= 18
  {
    if n == 0 then 0
    else RowLookups(t, c, n - 1, v) + (if TableOf(n - 1) == t && Chunk(c, n - 1) == v then 1 else 0)
  }

  /** A row's multiplicity times the number of its lookups. */
  function Weighted(isReal: nat, n: nat): nat {
    isReal * n
  }

  /** The total multiplicity with which the rows look up `v` in table `t`. */
  function Lookups(t: Table, rows: seq<Cells>, v: Felt): nat
    requires forall i | 0 <= i < |rows| :: |rows[i]| == TraceColumns(Lookup)
  {
    if rows == [] then 0
    else Lookups(t, rows[..|rows| - 1], v) + Weighted(IsReal(rows[|rows| - 1]), RowLookups(t, rows[|rows| - 1], 18, v))
  }

  /** The lookups of `v` cancel against its multiplicity in the table, in the field. */
  predicate LookupBalancedAt(t: Table, rows: seq<Cells>, multiplicity: seq<Felt>, v: Felt)
    requires forall i | 0 <= i < |rows| :: |rows[i]| == TraceColumns(Lookup)
    requires |multiplicity| == TableSize(t)
  {
    Vanishes(Lookups(t, rows, v) - (if v < |multiplicity| then multiplicity[v] else 0))
  }

  ghost predicate LookupBalance(t: Table, rows: seq<Cells>, multiplicity: seq<Felt>)
    requires forall i | 0 <= i < |rows| :: |rows[i]| == TraceColumns(Lookup)
    requires |multiplicity| == TableSize(t)
  {
    forall v: Felt :: LookupBalancedAt(t, rows, multiplicity, v)
  }

  // ---- Multiplicities as counts ----

  predicate BooleanRows(rows: seq<Cells>) {
    forall i | 0 <= i < |rows| :: IsReal(rows[i]) <= 1
  }

  lemma {:induction false} UsesBound(rows: seq<Cells>, s: State)
    requires BooleanRows(rows)
    ensures Uses(rows, s) <= |rows| && Yields(rows, s) <= |rows|
  {
    if rows != [] {
      UsesBound(rows[..|rows| - 1], s);
    }
  }

  lemma {:induction false} UserExists(rows: seq<Cells>, s: State) returns (i: nat)
    requires BooleanRows(rows) && Uses(rows, s) > 0
    ensures i < |rows| && IsReal(rows[i]) == 1 && InputState(rows[i]) == s
  {
    i := |rows| - 1;
    if !(IsReal(rows[i]) == 1 && InputState(rows[i]) == s) {
      i := UserExists(rows[..|rows| - 1], s);
    }
  }

  lemma {:induction false} YieldCounts(rows: seq<Cells>, i: nat)
    requires i < |rows| && IsReal(rows[i]) == 1
    ensures Yields(rows, OutputState(rows[i])) > 0
  {
    if i < |rows| - 1 {
      YieldCounts(rows[..|rows| - 1], i);
    }
  }

  /** Sample identifiers keep the initial states apart. */
  lemma {:induction false} InitialsBound(cases: seq<TestCase>, n: nat, s: State)
    requires n <= |cases| < P
    ensures Initials(cases, n, s) <= 1
    ensures Initials(cases, n, s) == 1 ==> |s| > 0 && s[0] < n
  {
    hide LimbsOf, Canonical;
    if n > 0 {
      InitialsBound(cases, n - 1, s);
    }
  }

  lemma {:induction false} InitialCounts(cases: seq<TestCase>, n: nat, j: nat)
    requires j < n <= |cases| < P
    ensures Initials(cases, n, InitialState(j, cases[j])) > 0
  {
    hide InitialState, Canonical;
    if j < n - 1 {
      InitialCounts(cases, n - 1, j);
    }
  }

  lemma {:induction false} FinalsBound(cases: seq<TestCase>, repetitions: nat, n: nat, s: State)
    requires n <= |cases| && Admissible(cases, repetitions)
    ensures Finals(cases, repetitions, n, s) <= 1
    ensures Finals(cases, repetitions, n, s) == 1 ==>
              |s| > 1 && s[0] < n && s == FinalState(s[0], cases[s[0]], repetitions)
  {
    hide LimbsOf, LeValue, Canonical;
    if n > 0 {
      FinalsBound(cases, repetitions, n - 1, s);
    }
  }

  /** With fewer than `P - 1` rows the cancellation in the field is one of counts. */
  lemma {:induction false} BalanceLifts(rows: seq<Cells>, cases: seq<TestCase>, repetitions: nat, s: State)
    requires BooleanRows(rows) && |rows| + 1 < P && Admissible(cases, repetitions)
    ensures BalancedAt(rows, cases, repetitions, s) <==>
            Uses(rows, s) + Finals(cases, repetitions, |cases|, s) == Yields(rows, s) + Initials(cases, |cases|, s)
  {
    hide Uses, Yields, Initials, Finals, InitialState, FinalState, Vanishes;
    UsesBound(rows, s);
    InitialsBound(cases, |cases|, s);
    FinalsBound(cases, repetitions, |cases|, s);
    VanishesSmall(Uses(rows, s) + Finals(cases, repetitions, |cases|, s)
                  - Yields(rows, s) - Initials(cases, |cases|, s));
  }
}
