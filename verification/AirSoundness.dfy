/**
 Soundness of the native AIR: rows that meet the constraints and balance the
 relations force every public output to be `r0 + K * r1` modulo `2^256`.

 The proof follows the chain of states of each sample from its public initial
 state.  Repetition indices wrap at `P`, so the chain is shown to stop at
 repetition `K` by counting rows.
 */
module AirSoundness {
  import opened Binary
  import opened Mersenne31
  import opened Limbs
  import opened AirConstraints
  import opened RangeChecks
  import opened AirRelations

  /** What a row must guarantee for the chain argument. */
  predicate StepSound(c: Cells) {
    && IsReal(c) <= 1
    && (IsReal(c) == 1 && Canonical(Acc(c)) && Canonical(Addend(c)) ==> Next(c) == SumLimbs(Acc(c), Addend(c)))
  }

  predicate RowsSound(rows: seq<Cells>) {
    forall i | 0 <= i < |rows| :: StepSound(rows[i])
  }

  /** The state of sample `j` after `k` additions. */
  function StateAt(j: nat, t: TestCase, k: nat): State
    requires j < P
  {
    StateFromLimbs(j, k % P, Accumulated(LimbsOf(t.r0In), LimbsOf(t.r1In), k), LimbsOf(t.r1In))
  }

  /** The program's own check of the fixture: every output is the repeated sum. */
  predicate OutputCorrect(t: TestCase, repetitions: nat) {
    HasOutput(t) && Output(t) == (t.r0In + repetitions * t.r1In) % Pow2(256)
  }

  predicate OutputsCorrect(cases: seq<TestCase>, repetitions: nat) {
    forall j | 0 <= j < |cases| :: OutputCorrect(cases[j], repetitions)
  }

  /** A row or the boundary puts `s` into the state relation. */
  predicate Arrives(rows: seq<Cells>, cases: seq<TestCase>, s: State)
    requires |cases| < P
  {
    Yields(rows, s) + Initials(cases, |cases|, s) > 0
  }

  predicate Ends(cases: seq<TestCase>, repetitions: nat, s: State)
    requires Admissible(cases, repetitions)
  {
    Finals(cases, repetitions, |cases|, s) > 0
  }

  /** What the chain argument assumes of a run. */
  ghost predicate SoundRun(rows: seq<Cells>, cases: seq<TestCase>, repetitions: nat) {
    && Admissible(cases, repetitions)
    && |rows| + 1 < P
    && RowsSound(rows)
    && StateBalance(rows, cases, repetitions)
  }

  lemma {:induction false} NextRepetition(k: nat)
    ensures (k % P + 1) % P == (k + 1) % P
  {
  }

  lemma {:induction false} InputParts(c: Cells, j: nat, t: TestCase, k: nat)
    requires j < P && InputState(c) == StateAt(j, t, k)
    ensures SampleId(c) == j && RepIdx(c) == k % P
    ensures Acc(c) == Accumulated(LimbsOf(t.r0In), LimbsOf(t.r1In), k) && Addend(c) == LimbsOf(t.r1In)
  {
    hide LimbsOf, Canonical, Accumulated;
    var s := InputState(c);
    assert s[0] == SampleId(c) && s[1] == RepIdx(c);
    assert s[2..11] == Acc(c) && s[11..20] == Addend(c);
  }

  /** A sound row that takes in the state after `k` additions puts out the state after `k + 1`. */
  lemma {:induction false} StepForward(c: Cells, j: nat, t: TestCase, k: nat)
    requires j < P && StepSound(c) && IsReal(c) == 1 && InputState(c) == StateAt(j, t, k)
    ensures OutputState(c) == StateAt(j, t, k + 1)
  {
    hide LimbsOf, Canonical, SumLimbs;
    InputParts(c, j, t, k);
    NextRepetition(k);
    assert Accumulated(LimbsOf(t.r0In), LimbsOf(t.r1In), k + 1) == Next(c);
  }

  lemma {:induction false} BooleanFromSound(rows: seq<Cells>)
    requires RowsSound(rows)
    ensures BooleanRows(rows)
  {
  }

  /** A state that something puts in and that is not a public end is taken by a row. */
  lemma {:induction false} ChainStep(
      rows: seq<Cells>, cases: seq<TestCase>, repetitions: nat, j: nat, k: nat) returns (i: nat)
    requires SoundRun(rows, cases, repetitions) && j < |cases|
    requires Arrives(rows, cases, StateAt(j, cases[j], k)) && !Ends(cases, repetitions, StateAt(j, cases[j], k))
    ensures i < |rows| && RepIdx(rows[i]) == k % P
    ensures Arrives(rows, cases, StateAt(j, cases[j], k + 1))
  {
    hide StateAt, Uses, Yields, InputState, OutputState, StepSound, Initials, Finals;
    var s := StateAt(j, cases[j], k);
    assert BalancedAt(rows, cases, repetitions, s);
    BooleanFromSound(rows);
    BalanceLifts(rows, cases, repetitions, s);
    i := UserExists(rows, s);
    InputParts(rows[i], j, cases[j], k);
    StepForward(rows[i], j, cases[j], k);
    YieldCounts(rows, i);
  }

  /** The chain of sample `j` goes on as long as it meets no public end. */
  lemma {:induction false} ChainFrom(
      rows: seq<Cells>, cases: seq<TestCase>, repetitions: nat, j: nat, n: nat) returns (users: seq<nat>)
    requires SoundRun(rows, cases, repetitions) && j < |cases|
    requires forall k | 0 <= k < n :: !Ends(cases, repetitions, StateAt(j, cases[j], k))
    ensures Arrives(rows, cases, StateAt(j, cases[j], n))
    ensures |users| == n
    ensures forall k | 0 <= k < n :: users[k] < |rows| && RepIdx(rows[users[k]]) == k % P
  {
    hide StateAt, Arrives, Ends, StateBalance, RowsSound;
    if n == 0 {
      StartArrives(rows, cases, repetitions, j);
      users := [];
    } else {
      users := ChainFrom(rows, cases, repetitions, j, n - 1);
      var i := ChainStep(rows, cases, repetitions, j, n - 1);
      users := users + [i];
    }
  }

  lemma {:induction false} StartArrives(rows: seq<Cells>, cases: seq<TestCase>, repetitions: nat, j: nat)
    requires Admissible(cases, repetitions) && j < |cases|
    ensures Arrives(rows, cases, StateAt(j, cases[j], 0))
  {
    hide LimbsOf, Canonical;
    assert StateAt(j, cases[j], 0) == InitialState(j, cases[j]);
    InitialCounts(cases, |cases|, j);
  }

  /** A list of distinct numbers below `m` has at most `m` members. */
  lemma {:induction false} Pigeonhole(s: seq<nat>, m: nat)
    requires forall a | 0 <= a < |s| :: s[a] < m
    requires forall a, b | 0 <= a < b < |s| :: s[a] != s[b]
    ensures |s| <= m
  {
    if s != [] {
      assert m > s[0];
      if p :| 0 <= p < |s| && s[p] == m - 1 {
        Pigeonhole(s[..p] + s[p + 1..], m - 1);
      } else {
        Pigeonhole(s, m - 1);
      }
    }
  }

  lemma {:induction false} EndHasRepetition(cases: seq<TestCase>, repetitions: nat, j: nat, k: nat)
    requires Admissible(cases, repetitions) && j < |cases|
    requires Ends(cases, repetitions, StateAt(j, cases[j], k))
    ensures k % P == repetitions
    ensures StateAt(j, cases[j], k) == FinalState(j, cases[j], repetitions)
  {
    hide LimbsOf, Canonical, Accumulated, Finals;
    FinalsBound(cases, repetitions, |cases|, StateAt(j, cases[j], k));
  }

  lemma {:induction false} RepetitionBelow(k: nat)
    requires k < P
    ensures k % P == k
  {
  }

  lemma {:induction false} NoEarlierEnd(cases: seq<TestCase>, repetitions: nat, j: nat, k: nat)
    requires Admissible(cases, repetitions) && j < |cases| && k < P
    requires !Ends(cases, repetitions, StateAt(j, cases[j], repetitions))
    ensures !Ends(cases, repetitions, StateAt(j, cases[j], k))
  {
    hide StateAt, Ends;
    if Ends(cases, repetitions, StateAt(j, cases[j], k)) {
      EndHasRepetition(cases, repetitions, j, k);
      RepetitionBelow(k);
      assert false;
    }
  }

  /** Distinct repetition indices mean distinct rows. */
  lemma {:induction false} UsersDistinct(rows: seq<Cells>, users: seq<nat>)
    requires |users| == P
    requires forall k | 0 <= k < P :: users[k] < |rows| && RepIdx(rows[users[k]]) == k % P
    ensures P <= |rows|
  {
    forall a, b | 0 <= a < b < |users| ensures users[a] != users[b] {
      RepetitionBelow(a);
      RepetitionBelow(b);
    }
    Pigeonhole(users, |rows|);
  }

  /** The chain of every sample stops at repetition `K`: otherwise it would need `P` rows. */
  lemma {:induction false} ChainEnds(rows: seq<Cells>, cases: seq<TestCase>, repetitions: nat, j: nat)
    requires SoundRun(rows, cases, repetitions) && j < |cases|
    ensures Ends(cases, repetitions, StateAt(j, cases[j], repetitions))
  {
    hide StateAt, Ends, StateBalance, RowsSound;
    if !Ends(cases, repetitions, StateAt(j, cases[j], repetitions)) {
      forall k | 0 <= k < P ensures !Ends(cases, repetitions, StateAt(j, cases[j], k)) {
        NoEarlierEnd(cases, repetitions, j, k);
      }
      var users := ChainFrom(rows, cases, repetitions, j, P);
      UsersDistinct(rows, users);
      assert false;
    }
  }

  /** Equal end states mean that the public output is the repeated sum. */
  lemma {:induction false} EndMeansSum(j: nat, t: TestCase, repetitions: nat)
    requires j < P && HasOutput(t) && repetitions < P
    ensures StateAt(j, t, repetitions) == FinalState(j, t, repetitions) <==> OutputCorrect(t, repetitions)
  {
    hide Pow2, LimbsOf, Canonical, Accumulated, LeValue;
    var a, b := StateAt(j, t, repetitions), FinalState(j, t, repetitions);
    assert a[2..11] == Accumulated(LimbsOf(t.r0In), LimbsOf(t.r1In), repetitions);
    assert b[2..11] == LimbsOf(Output(t));
    AccumulatedIsProduct(t.r0In, t.r1In, repetitions);
    SameLimbs(Output(t), t.r0In + repetitions * t.r1In);
    LeValueBound(t.y[..32]);
    SmallModulus(Output(t), Pow2(256));
    RepetitionBelow(repetitions);
  }

  lemma {:induction false} RunIsSound(rows: seq<Cells>, cases: seq<TestCase>, repetitions: nat)
    requires SoundRun(rows, cases, repetitions)
    ensures OutputsCorrect(cases, repetitions)
  {
    hide StateAt, Ends, OutputCorrect, StateBalance, FinalState;
    forall j | 0 <= j < |cases| ensures OutputCorrect(cases[j], repetitions) {
      ChainEnds(rows, cases, repetitions, j);
      EndHasRepetition(cases, repetitions, j, repetitions);
      EndMeansSum(j, cases[j], repetitions);
    }
  }

  predicate TraceMeets(mode: RangeCheckMode, rows: seq<Cells>) {
    forall i | 0 <= i < |rows| :: |rows[i]| == TraceColumns(mode) && Evaluate(mode, rows[i])
  }

  /**
   Soundness in `Bits` mode: rows that meet the constraints and balance the
   state relation prove every public output.
   */
  lemma {:induction false} BitsModeSound(rows: seq<Cells>, cases: seq<TestCase>, repetitions: nat)
    requires Admissible(cases, repetitions) && |rows| + 1 < P
    requires TraceMeets(Bits, rows) && StateBalance(rows, cases, repetitions)
    ensures OutputsCorrect(cases, repetitions)
  {
    hide Evaluate, RowAdds, StateBalance, OutputsCorrect, SumLimbs, Canonical;
    forall i | 0 <= i < |rows| ensures StepSound(rows[i]) {
      IsRealIsBit(Bits, rows[i]);
      if IsReal(rows[i]) == 1 {
        BitsRowExactly(rows[i]);
        RowAddsNext(rows[i]);
      }
    }
    RunIsSound(rows, cases, repetitions);
  }

  lemma {:induction false} RowAddsNext(c: Cells)
    ensures RowAdds(c) ==> Next(c) == SumLimbs(Acc(c), Addend(c))
  {
  }

  /**
   Soundness in `Lookup` mode, where only the next accumulator is range-checked:
   the range of each accumulator is that of the row before it, back to the
   public boundary.
   */
  lemma {:induction false} LookupModeSound(rows: seq<Cells>, cases: seq<TestCase>, repetitions: nat)
    requires Admissible(cases, repetitions) && |rows| + 1 < P
    requires TraceMeets(Lookup, rows) && (forall i | 0 <= i < |rows| :: ChunksInTables(rows[i]))
    requires StateBalance(rows, cases, repetitions)
    ensures OutputsCorrect(cases, repetitions)
  {
    hide Evaluate, RowAdds, StateBalance, OutputsCorrect, SumLimbs, Canonical, ChunksInTables;
    forall i | 0 <= i < |rows| ensures StepSound(rows[i]) {
      IsRealIsBit(Lookup, rows[i]);
      if IsReal(rows[i]) == 1 && Canonical(Acc(rows[i])) && Canonical(Addend(rows[i])) {
        LookupRowExactly(rows[i]);
        RowAddsNext(rows[i]);
      }
    }
    RunIsSound(rows, cases, repetitions);
  }
}
