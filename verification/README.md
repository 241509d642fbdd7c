# Repeated addition, verified

This project models the benchmark's workload, `r0 := r0 + K * r1 mod 2^w`, in
its two independent realisations, together with the machinery that is meant to
make them agree, and proves that they do.

**The native AIR** (`Mersenne31`, `Limbs`, `AirConstraints`, `RangeChecks`,
`AirRelations`, `AirSoundness`, `AirTrace`, `AirCompleteness`, `AirLookups`,
`AirLimits`, `Fields`, `AirSums`, `AirGenerator`, `AirProver`). 256-bit numbers
are nine limbs; a row proves one addition over the field of size
`p = 2^31 - 1`; a LogUp relation links rows into one chain for each sample. The
LogUp argument is modelled by its formal sums: for each tuple, the
multiplicities that rows, tables and public boundary give it must cancel modulo
`p`. Soundness follows each chain from its public start, lifts field equations
to integers, and shows by counting rows that it can only stop at repetition
`K`. Completeness covers the generated trace in all three range-check modes,
and the prover's sums over an arbitrary field with an arbitrary combination of
tuples. Two bounds come out of the proofs and are exact. The chain argument
bears fewer than `p - 1` rows, which every power-of-two trace below `p` meets.
The range lookups bear `n` rows if and only if `9 * n < p`, so a lookup-mode
trace of `2^28` padded rows or more is outside the reach of the lookup
argument; the program puts no such limit on its trace.

**The kickmix simulator and the adder it runs** (`Kickmix`, `Circuits`,
`Simulator`, `Fuzz`, `Statement`, `Classical`, `Adder`, `AdderStatement`,
`Conditions`, `Reversibility`, `Uncomputation`). The simulator is a state
machine over qubits, classical bits, sign, condition stack and measurement
stream. The adder is the width-parametric gate list that the fixtures store;
the workload document calls it a Cuccaro adder, but the stored gates need no
ancilla and borrow the top bit of r1 as carry wire, and the model follows the
gates. The end-to-end theorem runs the proof statement on `K` copies of it.

**The bridges** (`Gtv1`, `Reference`, `Transpiler`, `Registers`, `Fixture`,
`Keccak`, `Shake256`, `Fips202`, `Xof`, `FiatShamir`). The transpiler to the packed gate
format, its two interpreters, the codec, the register encoding, and the case
derivation from SHAKE-256. `Fips202` defines the permutation, its constants and
the padding of FIPS 202 once more, bit by bit, and shows the lane-wise and
byte-wise versions equal to it. `Fixture` ends with the link between the two
realisations: a stored 256-bit case passes the native AIR's output check.

Programs that work in place are methods over arrays and classes, each proved
equal to a function of its inputs; the theorems are about those functions.
Panics and exceptions are results. Measurement generators are arbitrary bit
streams. Automatic induction is switched off on every lemma, so each induction
is written out; `hide` statements only narrow what a proof may use.

## Model

| member | source | states |
|---|---|---|
| `Mersenne31.ModulusIsPrime` | benchmarks/stwo/iadd256/native-air/src/main.rs:54-54 | the field modulus `2^31 - 1` is prime, so that constraints over it may be split into factors |
| `Mersenne31.ZeroProduct` | benchmarks/stwo/iadd256/native-air/src/main.rs:380-384 | a product that vanishes in the field has a vanishing factor: the step from `c * (c - 1) = 0` to `c` is a bit |
| `Mersenne31.Fermat` | benchmarks/stwo/iadd256/native-air/src/main.rs:54-54 | `x^(r-1)` is 1 modulo a prime `r` that does not divide `x`; with it the order of 2 and of one witness bound the prime factors of the modulus |
| `Limbs.AddLimbs` | benchmarks/stwo/iadd256/native-air/src/main.rs:1417-1428 | the limb loop gives canonical limbs of the sum modulo `2^256` from any 32-bit limbs, and carries that are bits when the inputs are canonical |
| `Limbs.SumIsModular` | benchmarks/stwo/iadd256/native-air/src/main.rs:1417-1428 | sum limbs plus the carry out of the top limb at `2^256` are exactly the sum of the two numbers |
| `Limbs.ValueIsWeightedSum` | benchmarks/stwo/iadd256/native-air/src/main.rs:40-44 | limb `i` is worth `2^(29 i)`, from the lowest to the 24-bit top limb |
| `Limbs.BiguintToLimbs` | benchmarks/stwo/iadd256/native-air/src/main.rs:1430-1441 | the limbs of a number are canonical and stand for it modulo `2^256` |
| `Limbs.CanonicalRoundTrip` | benchmarks/stwo/iadd256/native-air/src/main.rs:1430-1441 | canonical limbs are the limbs of their value |
| `Limbs.SameLimbs` | benchmarks/stwo/iadd256/native-air/src/main.rs:1430-1441 | two numbers have the same limbs if and only if they agree modulo `2^256` |
| `Limbs.AccumulatedIsProduct` | benchmarks/stwo/iadd256/native-air/src/main.rs:1245-1265 | `k` limb additions of `y` to `x` leave the limbs of `x + k * y` |
| `Limbs.SplitLookupChunks` | benchmarks/stwo/iadd256/native-air/src/main.rs:1380-1391 | the two chunks recompose the limb, the low one has 18 bits, and the high one fits its table if and only if the limb is canonical |
| `Limbs.ChunksAreUnique` | benchmarks/stwo/iadd256/native-air/src/main.rs:1380-1391 | only the two chunks of a limb recompose it within their ranges |
| `AirConstraints.IdempotentIsBit` | benchmarks/stwo/iadd256/native-air/src/main.rs:379-384 | a cell meets the idempotence constraint if and only if it holds 0 or 1 |
| `AirConstraints.LimbEquationLifts` | benchmarks/stwo/iadd256/native-air/src/main.rs:386-399 | for canonical limbs the field equations of one limb hold if and only if the limb adds over the integers: no multiple of the modulus hides in them |
| `AirConstraints.LimbEquationsAreAddition` | benchmarks/stwo/iadd256/native-air/src/main.rs:386-399 | the nine integer limb equations hold if and only if next and carries are those of the limb addition |
| `AirConstraints.PaddingIsFree` | benchmarks/stwo/iadd256/native-air/src/main.rs:378-405 | a row that is not real meets every constraint of every mode whatever else it holds |
| `RangeChecks.BitsConstraintExactly` | benchmarks/stwo/iadd256/native-air/src/main.rs:521-532 | the bit columns of a real row pass if and only if the limb is in range and they are its bits |
| `RangeChecks.ChunkConstraintExactly` | benchmarks/stwo/iadd256/native-air/src/main.rs:534-567 | with chunks from the tables the chunk equation holds if and only if they are the chunks of the limb, which is then canonical |
| `RangeChecks.BitsRowExactly` | benchmarks/stwo/iadd256/native-air/src/main.rs:359-437 | in bit mode a real row passes if and only if it is an honest addition of canonical limbs with honest bit columns |
| `RangeChecks.LookupRowExactly` | benchmarks/stwo/iadd256/native-air/src/main.rs:359-437 | in lookup mode, from canonical inputs and chunks in the tables, a real row passes if and only if it is an honest addition with honest chunk columns |
| `RangeChecks.HonestRowEvaluates` | benchmarks/stwo/iadd256/native-air/src/main.rs:359-437 | an honest row passes in all three modes and its chunks are in the tables |
| `AirRelations.BalanceLifts` | benchmarks/stwo/iadd256/native-air/src/main.rs:407-437 | with fewer than `p - 1` rows the state relation cancels modulo `p` if and only if inputs + finals equal outputs + initials as counts |
| `AirRelations.FinalsBound` | benchmarks/stwo/iadd256/native-air/src/main.rs:1627-1652 | sample identifiers keep the public final states apart |
| `AirSoundness.StepForward` | benchmarks/stwo/iadd256/native-air/src/main.rs:407-425 | a sound row that takes in the state after `k` additions puts out the state after `k + 1`, the range of the accumulator included |
| `AirSoundness.ChainFrom` | benchmarks/stwo/iadd256/native-air/src/main.rs:407-425 | the chain of a sample goes on, one new row a step, as long as it meets no public final state |
| `AirSoundness.ChainEnds` | benchmarks/stwo/iadd256/native-air/src/main.rs:407-425 | it can stop only at repetition `K`: going round the wrapping index would need `p` distinct rows |
| `AirSoundness.EndMeansSum` | benchmarks/stwo/iadd256/native-air/src/main.rs:1113-1124 | the state after `K` additions is the public final state if and only if the output is `(r0 + K * r1) mod 2^256` |
| `AirSoundness.BitsModeSound` | benchmarks/stwo/iadd256/native-air/src/main.rs:359-437 | any rows that meet the bit-mode constraints and balance the state relation force every output to be `(r0 + K * r1) mod 2^256` |
| `AirSoundness.LookupModeSound` | benchmarks/stwo/iadd256/native-air/src/main.rs:359-437 | the same in lookup mode, where only the next accumulator is range-checked and the range is inherited along the chain |
| `AirLookups.LookupsForceTables` | benchmarks/stwo/iadd256/native-air/src/main.rs:534-567 | balanced lookups put every chunk of every real row in its table, for any multiplicity columns |
| `AirLookups.LookupModeSoundFromBalance` | benchmarks/stwo/iadd256/native-air/src/main.rs:534-567 | lookup-mode soundness from the balanced state and range relations alone |
| `AirLimits.ExactRowBound` | benchmarks/stwo/iadd256/native-air/src/main.rs:662-667 | both sound modes hold for traces of `n` rows if and only if `n + 1 < p`; at `p - 1` rows a wrong output can be shown |
| `AirLimits.ExactLookupBound` | benchmarks/stwo/iadd256/native-air/src/main.rs:534-567 | balanced lookups put all chunks of `n` rows in the tables if and only if `9 * n < p` |
| `AirLimits.LongTraceEscapes` | benchmarks/stwo/iadd256/native-air/src/main.rs:662-667 | from `p - 1` rows on, a trace of wrapping rows meets and balances everything with a wrong output |
| `AirLimits.ProvableExactlyWhenTrue` | benchmarks/stwo/iadd256/native-air/src/main.rs:359-437 | within the row bound a convincing trace exists if and only if every public output is the repeated sum |
| `AirTrace.CellsReadBack` | benchmarks/stwo/iadd256/native-air/src/main.rs:1277-1314 | the columns as written, read in the order of the constraints, give back the fields of the row |
| `AirTrace.RangeCellsHonest` | benchmarks/stwo/iadd256/native-air/src/main.rs:1316-1343 | the range-check columns of every mode hold the bits or the chunks of the right limbs |
| `AirCompleteness.HonestTraceMeets` | benchmarks/stwo/iadd256/native-air/src/main.rs:1228-1275 | the generated trace, padding rows included, meets every constraint in all three modes |
| `AirCompleteness.SampleTelescopes` | benchmarks/stwo/iadd256/native-air/src/main.rs:1245-1265 | the rows of a sample take in all but its last state and put out all but its first |
| `AirCompleteness.HonestTraceBalances` | benchmarks/stwo/iadd256/native-air/src/main.rs:1228-1275 | the generated trace balances the state relation if and only if the fixture outputs are the repeated sums |
| `AirLookups.CountsAreLookups` | benchmarks/stwo/iadd256/native-air/src/main.rs:254-281 | table by table and entry by entry, the counts are the number of lookups of the trace |
| `AirLookups.HonestLookupsBalance` | benchmarks/stwo/iadd256/native-air/src/main.rs:1403-1415 | the counts, as multiplicity columns, balance the lookups of the padded trace while the counts fit the field |
| `Fields.FractionDifference` | benchmarks/stwo/iadd256/native-air/src/main.rs:1512-1529 | over any field `(b - a) / (a * b)` is `1/a - 1/b` |
| `Fields.FractionSum` | benchmarks/stwo/iadd256/native-air/src/main.rs:1531-1553 | over any field `(b + a) / (a * b)` is `1/a + 1/b` |
| `AirSums.RealStateValue` | benchmarks/stwo/iadd256/native-air/src/main.rs:1512-1529 | the fraction of a real row is `1/input - 1/output` |
| `AirSums.ZeroValue` | benchmarks/stwo/iadd256/native-air/src/main.rs:1495-1553 | a padding row contributes nothing to any batch |
| `AirSums.SampleSum` | benchmarks/stwo/iadd256/native-air/src/main.rs:1512-1529 | for any way of combining states into a field, the fractions of a sample telescope to first minus last |
| `AirSums.TraceSum` | benchmarks/stwo/iadd256/native-air/src/main.rs:1627-1652 | the state batch of the trace adds up to the public boundary sum |
| `AirSums.SeqSumBump` | benchmarks/stwo/iadd256/native-air/src/main.rs:270-280 | counting an entry once more adds its inverse to the table sum |
| `AirSums.LookupsExchange` | benchmarks/stwo/iadd256/native-air/src/main.rs:1654-1673 | the row-indexed, batch-ordered sum of chunk inverses is the value-indexed sum weighted by the counts |
| `AirSums.ClaimedSumIsExpected` | benchmarks/stwo/iadd256/native-air/src/main.rs:805-826 | when the fixture outputs check, the claimed main sum is boundary sum plus lookup sum, in every mode |
| `AirGenerator.WriteRowToCols` | benchmarks/stwo/iadd256/native-air/src/main.rs:1277-1343 | column by column, a row is written as the column layout says and no other row changes |
| `AirGenerator.LookupCounts.AddNextLimbs` | benchmarks/stwo/iadd256/native-air/src/main.rs:270-280 | the three count arrays are those of the specification after one more row |
| `AirGenerator.GenerateMainTrace` | benchmarks/stwo/iadd256/native-air/src/main.rs:1228-1275 | the columns hold the cells of the real rows followed by zero rows, and the counts are those of the real rows |
| `AirGenerator.ForEachPackedRow` | benchmarks/stwo/iadd256/native-air/src/main.rs:1583-1625 | `padded / 16` calls, numbered in order, where call `v` has the rows `16v` to `16v + 15` of the padded trace |
| `AirGenerator.LanesAreRows` | benchmarks/stwo/iadd256/native-air/src/main.rs:1583-1625 | the lanes of the calls, end to end, are the rows: none is skipped or repeated |
| `AirProver.CheckFixtureOutputs` | benchmarks/stwo/iadd256/native-air/src/main.rs:1113-1124 | accepts if and only if every output is the repeated sum, and otherwise reports the first wrong case |
| `AirProver.PublicBoundarySum` | benchmarks/stwo/iadd256/native-air/src/main.rs:1627-1652 | fails if and only if a state is shorter than 32 bytes, and otherwise is the boundary sum |
| `AirProver.SeqLookupPublicSum` | benchmarks/stwo/iadd256/native-air/src/main.rs:1660-1673 | skipping entries that are never looked up does not change the table sum |
| `AirProver.GenSeqLookupInteraction` | benchmarks/stwo/iadd256/native-air/src/main.rs:1555-1581 | the sum a table component claims, vector row by vector row, is the negated public sum |
| `AirProver.GenMainInteraction` | benchmarks/stwo/iadd256/native-air/src/main.rs:1457-1486 | the claimed sum over batches, vector rows and lanes is the claimed sum of the padded trace |
| `AirProver.PaddedLength` | benchmarks/stwo/iadd256/native-air/src/main.rs:671-676 | the trace length is a power of two that holds the rows, at least 64, and 64 or less than twice the rows |
| `AirProver.PaddedLengthIsLeast` | benchmarks/stwo/iadd256/native-air/src/main.rs:671-676 | no smaller power of two of at least 64 holds the rows |
| `AirProver.ProveRun` | benchmarks/stwo/iadd256/native-air/src/main.rs:659-893 | the run up to its sum comparisons succeeds if and only if the sizes are admissible and the fixture outputs check; no mismatch error can occur, the trace length is the least admissible power of two, and the size errors name their exact causes |
| `Kickmix.PhaseGateKicks` | kickmix/src/lib.rs:398-415 | Z, CZ and CCZ negate the sign if and only if all operands are on and every condition holds, and change nothing else |
| `Kickmix.FlipGateFlips` | kickmix/src/lib.rs:385-397 | X, CX and CCX flip their last operand if and only if the others are on and every condition holds |
| `Kickmix.NegAndSwap` | kickmix/src/lib.rs:416-422 | NEG negates the sign and SWAP exchanges exactly its two qubits, when every condition holds |
| `Kickmix.ResetClears` | kickmix/src/lib.rs:423-431 | R turns its qubit off; only a qubit that was on draws a result, which then kicks the sign |
| `Kickmix.MeasureKicks` | kickmix/src/lib.rs:432-446 | HMR draws and stores a result, kicks the sign if qubit and result are on, and turns the qubit off |
| `Kickmix.BitWritesWrite` | kickmix/src/lib.rs:447-461 | the three bit instructions write their one bit and no other |
| `Kickmix.ConditionsStack` | kickmix/src/lib.rs:366-376 | push stacks the bit, off if there is none, and pop drops the top if there is one |
| `Kickmix.InactiveDoesNothing` | kickmix/src/lib.rs:341-344 | an instruction with a false condition, its own or a stacked one, changes nothing |
| `Kickmix.RunConcat` | kickmix/src/lib.rs:349-353 | running one list after another is running them joined |
| `Kickmix.RunKeepsShape` | kickmix/src/lib.rs:362-464 | no run resizes the qubits or bits or takes back a drawn measurement |
| `Circuits.ParseLines` | kickmix/src/lib.rs:89-147 | the line loop gives the parsed circuit or the first malformed line |
| `Circuits.ParsePrefixWellFormed` | kickmix/src/lib.rs:89-147 | a parsed circuit keeps its lines and covers every qubit and bit they and its registers name |
| `Circuits.ParseReports` | kickmix/src/lib.rs:89-147 | parsing succeeds if and only if every register line has the operands it takes, and otherwise names the first line that has not |
| `Circuits.ParsedMembers` | kickmix/src/lib.rs:213-251 | the members of a register are the qubits appended to it, in order |
| `Circuits.QubitCountIsTight` | kickmix/src/lib.rs:89-147 | the qubit count is one past a qubit that some line names |
| `Circuits.ExtendMembers` | kickmix/src/lib.rs:213-251 | appending to a register extends that register and no other |
| `Circuits.RunNeverPanics` | kickmix/src/lib.rs:362-464 | well-typed instructions inside the bounds run to their end from every state and on every measurement stream |
| `Simulator.SimState.StepInPlace` | kickmix/src/lib.rs:362-464 | the in-place step agrees with the machine on qubits, bits, sign, stack and drawn measurements, and fails exactly where the program panics |
| `Simulator.SimState.RunInPlace` | kickmix/src/lib.rs:349-353 | the in-place run agrees with the machine |
| `Simulator.LoadedAt` | kickmix/src/lib.rs:471-477 | loading a register sets each member to its bit and no other qubit |
| `Simulator.LoadThenRead` | kickmix/src/lib.rs:471-490 | reading a loaded register gives the value modulo its width |
| `Fuzz.PassMeans` | kickmix/src/lib.rs:534-576 | a case passes if and only if the run ends, every register holds its expected value reduced to its width, every other qubit is off and the sign is positive |
| `Fuzz.CheckCaseInPlace` | kickmix/src/lib.rs:534-576 | the in-place check gives that verdict, with the first failure in the order register, ancilla, sign |
| `Fuzz.FirstWrongRegister` | kickmix/src/lib.rs:547-563 | a wrong output is that of the first wrong register, with its expected and actual value |
| `Fuzz.FirstUnclearedQubit` | kickmix/src/lib.rs:565-570 | an uncleared ancilla is the lowest qubit that is on outside all registers |
| `Fuzz.FuzzAll` | kickmix/src/lib.rs:581-601 | the nested loops give the first failing shot or the number of shots |
| `Fuzz.FuzzMeans` | kickmix/src/lib.rs:578-601 | fuzzing succeeds if and only if every shot of every case passes, and has then counted all of them |
| `Fuzz.FirstFailingShot` | kickmix/src/lib.rs:578-601 | a campaign reports the first shot, in case order and then shot order, that does not pass |
| `Conditions.FalseBlockIsSkipped` | kickmix/src/lib.rs:341-383 | under a false condition a nested program changes no qubit, bit or sign, draws no measurement and restores the stack, at any depth |
| `Conditions.FlatRefinesStructured` | kickmix/src/lib.rs:341-383 | push, body, pop runs the body if and only if the bit was on at entry, and restores the stack |
| `Conditions.BalancedMeansNested` | kickmix/src/lib.rs:341-383 | every balanced flat program behaves as a nested one, from every machine and on every measurement stream |
| `Conditions.FlattenIsBalanced` | kickmix/src/lib.rs:362-383 | nested programs flatten to balanced ones |
| `Reversibility.ReverseUndoes` | kickmix/src/lib.rs:385-422 | a list of unitary gates on distinct operands, each optionally conditional, is undone by the reversed list from every state |
| `Reversibility.UnitaryInjective` | kickmix/src/lib.rs:385-422 | such a list never maps two machines to one |
| `Uncomputation.MeasurementRefinesToffoli` | kickmix/src/lib.rs:18-26 | replacing every Toffoli that clears an AND by a measurement and a conditional CZ keeps qubits, sign and all other bits on every measurement stream |
| `Classical.StepIsApply` | kickmix/src/lib.rs:385-397 | a classical gate line changes the qubits as the gate says and nothing else |
| `Classical.RunIsApplyAll` | kickmix/src/lib.rs:349-397 | a classical circuit touches the qubits only and never panics |
| `Adder.SumBitsValue` | WORKLOAD.md:36-39 | the ripple-carry sum bits of two n-bit numbers are their sum modulo `2^n` |
| `Adder.AdderAdds` | fixtures/v0.3-iadd64-k4-n16.json:149-149 | at every width from 3 the gate family adds r1 into r0 modulo `2^n` and restores every other qubit, the borrowed top bit of r1 included |
| `Adder.RepeatedAdderAdds` | python/tests/test_iadd_fixture.py:136-144 | `k` copies add `k` times r1, with r1 and all other qubits unchanged |
| `Adder.AdderCounts` | python/tests/test_kmx.py:56-80 | the family has `2n - 3` Toffoli and `8n - 10` CNOT gates |
| `Statement.SpecSumIsModular` | kickmix/src/statement.rs:66-84 | the wrapping 128-bit arithmetic and mask give `(x + K * y) mod 2^width` for widths 1 to 128, where at 128 the modulus is stored as 0 |
| `Statement.CertifyMeans` | kickmix/src/resource.rs:95-131 | there is no violation if and only if the counts are within the demanded bounds |
| `Statement.ViolationsAreListed` | kickmix/src/resource.rs:95-131 | each violation is listed if and only if its bound is broken, with the committed and the demanded number |
| `Statement.CountIsCardinality` | kickmix/src/resource.rs:57-78 | the non-Clifford count is the number of positions that hold a CCX or a CCZ |
| `Statement.StatementAccepts` | kickmix/src/statement.rs:66-102 | the statement returns its outputs if and only if every derived case passes and the counts are within bounds |
| `Statement.FirstFailure` | kickmix/src/statement.rs:66-102 | a failed case is reported by the index of the first one; violations are reported only when all cases pass |
| `Statement.RunStatement` | kickmix/src/statement.rs:66-102 | the case loop with early return computes that statement |
| `AdderStatement.ParsesToAdderCircuit` | kickmix/src/lib.rs:89-147 | the adder file parses to two n-qubit registers, 2n qubits and no classical bit |
| `AdderStatement.AdderCasePasses` | kickmix/src/lib.rs:534-576 | every derived case passes on `K` copies of the adder, whatever the measurement stream |
| `AdderStatement.AdderFileCounts` | kickmix/src/resource.rs:62-78 | the file has `K(2n-3)` non-Clifford gates and `2n + 2 + K(10n-13)` instructions |
| `AdderStatement.AdderStatementHolds` | kickmix/src/statement.rs:66-102 | for every hash, width 3 to 128, sample and repetition count, the statement on `K` adders returns `[N, 2n, K(2n-3), instructions, 42]` if and only if the counts are within the demanded bounds |
| `Keccak.ThetaInPlace` | kickmix/src/fiat_shamir.rs:61-73 | the parity loops compute the theta step mapping of FIPS 202, section 3.2.1 |
| `Keccak.RhoPiInPlace` | kickmix/src/fiat_shamir.rs:74-81 | the single-temporary walk equals the simultaneous rotation and permutation of lanes of sections 3.2.2 and 3.2.3 |
| `Keccak.WalkFollowsPi` | kickmix/src/fiat_shamir.rs:50-56 | the walk visits each lane but the first once, with the lane and rotation that those sections prescribe |
| `Keccak.RotationsAreTriangular` | kickmix/src/fiat_shamir.rs:50-56 | the rotation constants are the triangular numbers of section 3.2.2 |
| `Keccak.ChiInPlace` | kickmix/src/fiat_shamir.rs:82-91 | the row-wise in-place loop equals the chi step mapping of section 3.2.4 |
| `Keccak.KeccakF1600` | kickmix/src/fiat_shamir.rs:59-94 | 24 in-place rounds are 24 compositions of the step mappings |
| `Fips202.RoundConstantsAreStandard` | kickmix/src/fiat_shamir.rs:23-48 | bit `z` of the constant of round `r` is set if and only if `z` is `2^j - 1` for some `j <= 6` and the shift register of FIPS 202, section 3.2.5, puts out 1 at step `j + 7r` |
| `Fips202.OffsetsFollowWalk` | kickmix/src/fiat_shamir.rs:50-56 | the lane offsets are those that the walk of Algorithm 2 of FIPS 202 produces |
| `Fips202.ThetaByBits` | kickmix/src/fiat_shamir.rs:61-73 | theta on bits `A[x, y, z]`, section 3.2.1 |
| `Fips202.RhoPiByBits` | kickmix/src/fiat_shamir.rs:74-81 | rho and pi on bits `A[x, y, z]`, sections 3.2.2 and 3.2.3 |
| `Fips202.ChiByBits` | kickmix/src/fiat_shamir.rs:82-90 | chi on bits `A[x, y, z]`, section 3.2.4 |
| `Fips202.IotaByBits` | kickmix/src/fiat_shamir.rs:91-93 | iota on bits `A[x, y, z]`, section 3.2.5 |
| `Fips202.KeccakIsStandard` | kickmix/src/fiat_shamir.rs:59-94 | every bit of the permuted state is the one that an independent bit-by-bit definition of the 24 rounds gives |
| `Keccak.ThetaInjective` | kickmix/src/fiat_shamir.rs:61-73 | theta is injective: the 64th power of its map on column parities has the identity as its cube |
| `Keccak.RhoPiInjective` | kickmix/src/fiat_shamir.rs:74-81 | the lane rotation and permutation is injective |
| `Keccak.ChiInjective` | kickmix/src/fiat_shamir.rs:82-91 | chi is injective |
| `Keccak.KeccakFInjective` | kickmix/src/fiat_shamir.rs:59-94 | the permutation never maps two states to one |
| `Shake256.PadIsShortest` | kickmix/src/fiat_shamir.rs:101-108 | the padded message is the shortest multiple of the rate longer than the input |
| `Fips202.PadIsStandard` | kickmix/src/fiat_shamir.rs:101-108 | the bits of the padded message are the bits of the input, 1111, and pad10*1 to 1088 bits |
| `Fips202.MixIsXor` | kickmix/src/fiat_shamir.rs:110-119 | absorbing a block is the exclusive or of its bits with the first 1088 bits of the state |
| `Fips202.LastBlockAbsorbed` | kickmix/src/fiat_shamir.rs:110-122 | the blocks are mixed in and permuted from the first to the last |
| `Fips202.RateByteBits` | kickmix/src/fiat_shamir.rs:124-131 | the bytes that come out are the first 1088 bits of the state |
| `Fips202.SqueezeReturnsBlock` | kickmix/src/fiat_shamir.rs:110-131 | squeezing a block that was mixed into the zero state returns the block |
| `Fips202.StreamIsSqueezed` | kickmix/src/fiat_shamir.rs:124-137 | 136 bytes come out, then the state is permuted |
| `Shake256.PadInjective` | kickmix/src/fiat_shamir.rs:101-108 | different inputs pad differently, the one-byte 0x9f case included |
| `Shake256.ShakePrefix` | kickmix/src/fiat_shamir.rs:98-137 | a shorter digest is a prefix of a longer one of the same input |
| `Shake256.Shake256` | kickmix/src/fiat_shamir.rs:98-137 | the absorb and squeeze loops output the first bytes of the sponge stream |
| `Xof.XOF.Read` | python/grover_tax/xof.py:67-92 | each read returns the next bytes of the stream of the seed, so any sequence of reads returns a prefix, and all bytes digested so far stay within `max(4 * position, 8192)` |
| `FiatShamir.LeU128` | kickmix/src/fiat_shamir.rs:139-145 | the shift-and-or loop gives the little-endian value |
| `FiatShamir.DeriveCasesRust` | kickmix/src/fiat_shamir.rs:152-172 | the one-shot derivation returns the stream-ordered pairs, all below `2^width`, and rejects exactly the widths outside 1 to 128 and zero samples: with `n = ceil(width / 8)`, pair `k` holds the digest bytes from `2kn` in `x` and from `2kn + n` in `y`, reduced |
| `FiatShamir.DeriveCasesPython` | python/grover_tax/fiat_shamir.py:32-55 | the incremental derivation returns the same pairs, read off the same digest, for every positive width and count |
| `FiatShamir.WritingGivesDigest` | kickmix/src/fiat_shamir.rs:152-172 | at whole-byte widths, writing the operands of all pairs in order gives the digest back |
| `Gtv1.SerialiseGates` | python/grover_tax/serialise.py:102-117 | the row loop gives the serialisation or the first invalid gate; the bytes are GTV1, a 32-bit count, and for each gate opcode, zero, target and two controls |
| `Gtv1.DeserialiseBytes` | python/grover_tax/serialise.py:120-153 | the offset loop gives the gates or the error of the first malformed part; accepted bytes are the wire format of the gates |
| `Gtv1.SerialisedIsWire` | python/grover_tax/serialise.py:102-117 | every serialisation has the wire format, stated on its bytes |
| `Gtv1.DeserialisedIsWire` | python/grover_tax/serialise.py:120-153 | every accepted byte string has it for the gates read |
| `Gtv1.FirstInvalidGate` | python/grover_tax/serialise.py:156-172 | an invalid gate is reported by the index of the first one |
| `Gtv1.FirstBadRow` | python/grover_tax/serialise.py:120-153 | a malformed row is reported by the index of the first one, padding before opcode |
| `Reference.EmittedRows` | python/grover_tax/kmx.py:282-309 | X, CX and CCX become opcodes 1, 2 and 3 with the target first and 0xFFFF for an unused control |
| `Gtv1.SerialiseThenDeserialise` | python/grover_tax/serialise.py:102-172 | a gate list serialises if and only if all its gates are valid and a 32-bit count holds it, and reading back returns it |
| `Gtv1.DeserialiseThenSerialise` | python/grover_tax/serialise.py:120-172 | every accepted byte string is the serialisation of what it decodes to |
| `Reference.BitVector.Get` | python/grover_tax/sim_reference.py:63-67 | reads digit `i` of the little-endian integer of the bytes, or fails exactly outside the vector |
| `Reference.BitVector.Set` | python/grover_tax/sim_reference.py:69-80 | writes that digit of the little-endian integer and no other, or fails exactly outside the vector |
| `Reference.PackedValue` | python/grover_tax/sim_reference.py:44-84 | the little-endian integer of a packed state is the number its bits spell |
| `Reference.UnpackInjective` | python/grover_tax/sim_reference.py:44-84 | packed states are equal if their bits are |
| `Reference.Run` | python/grover_tax/sim_reference.py:86-117 | the byte-packed run agrees with the gate list on bits, errors included |
| `Reference.RunEmitted` | python/grover_tax/sim_reference.py:86-117 | emitted gates act as the classical gates they came from and never index outside the vector |
| `Transpiler.ParseKmx` | python/grover_tax/kmx.py:124-182 | the line loop gives the transpiled circuit or the first rejected line |
| `Transpiler.TranspileAccepts` | python/grover_tax/kmx.py:124-182 | a file is accepted if and only if every line is an unconditional classical gate or register line on 16-bit wires with well-formed operands |
| `Transpiler.FirstRejectedLine` | python/grover_tax/kmx.py:124-182 | a rejection names the first line that is not accepted, and is of the unsupported kind if and only if that line lies outside the classical subset |
| `Transpiler.TranspileMatchesParse` | python/grover_tax/kmx.py:245-309 | the transpiled registers and qubit count are those the kickmix parser finds |
| `Transpiler.TranspilePreservesMeaning` | python/grover_tax/kmx.py:124-182 | for every accepted file and every state the kickmix simulator changes qubits only, and the emitted gates give the same qubits bit for bit and leave padding bits alone |
| `Registers.EncodeRegisters` | python/grover_tax/registers.py:75-99 | the little-endian integer of the bytes spells the encoded bits, or encoding fails |
| `Registers.DecodeRegisters` | python/grover_tax/registers.py:102-119 | the values are decoded from the binary digits of the little-endian integer of the bytes |
| `Registers.EncodeReports` | python/grover_tax/registers.py:75-99 | encoding fails at the first value whose register is unknown or outside the state, and says which |
| `Registers.DecodeReports` | python/grover_tax/registers.py:102-119 | decoding fails if and only if a register reaches outside the state |
| `Registers.EncodedRegister` | python/grover_tax/registers.py:75-99 | after encoding, each register holds its last value reduced to its width |
| `Registers.EncodedOutside` | python/grover_tax/registers.py:75-99 | qubits of no register stay 0 |
| `Registers.EncodeThenDecode` | python/grover_tax/registers.py:75-119 | for disjoint duplicate-free layouts, decoding gives each value modulo `2^width`, negative inputs included |
| `Fixture.MinStateIsLeast` | python/grover_tax/registers.py:70-72 | the minimal state is the least number of bytes that covers the qubits |
| `Fixture.MinStateRuns` | python/grover_tax/registers.py:70-72 | every transpiled circuit runs in its minimal state without an index error |
| `Fixture.RunAdderCase` | python/grover_tax/registers.py:122-141 | encode, run and decode computes the specified result, each failure included |
| `Fixture.AdderCaseAdds` | python/grover_tax/registers.py:122-141 | through the transpiled adder in its minimal state the result is `((x + y) mod 2^n, y)` |
| `Fixture.IaddTestCases` | python/grover_tax/registers.py:144-172 | the generated operands are read off the digest in order, each case has its sum modulo `2^width`, and only non-positive sizes are rejected |
| `Fixture.GeneratedCasesPass` | python/grover_tax/registers.py:144-172 | the transpiled adder passes every generated case |
| `Fixture.Replay` | python/grover_tax/sim_reference.py:195-204 | the K-fold loop runs the stored single copy K times |
| `Fixture.BuildCases` | python/grover_tax/iadd_fixture.py:131-146 | every case stores the encodings of the input and of `((x + K * y) mod 2^w, y)`, or an encoding fails |
| `Fixture.SimCrossValidate` | python/grover_tax/iadd_fixture.py:207-231 | replays as many cases as fit the step budget, at least one, and reports the first mismatch |
| `Fixture.ReplayCountIsLargest` | python/grover_tax/iadd_fixture.py:219-221 | as many cases are replayed as fit 25 million gate steps, and at least one |
| `Fixture.FirstMismatch` | python/grover_tax/iadd_fixture.py:222-231 | a mismatch is reported by the index of the first case that does not replay |
| `Fixture.FixtureLaw` | python/grover_tax/iadd_fixture.py:131-146 | K runs of the stored adder on an encoded pair give bit for bit the encoding of `((x + K * y) mod 2^n, y)` |
| `Fixture.CrossValidationPasses` | python/grover_tax/iadd_fixture.py:207-231 | cross-validation of the adder never fails, at any width and any K |
| `Fixture.DecodedResult` | python/grover_tax/registers.py:102-119 | decoding such a state gives the two integers |
| `Fixture.AdderBytes` | python/grover_tax/registers.py:75-99 | at whole-byte widths the first bytes of an encoded pair are the accumulator and the next the offset, both little-endian |
| `Fixture.LowRegisterIsAccumulator` | benchmarks/stwo/iadd256/native-air/src/main.rs:1443-1449 | at width 256 the 32 bytes that the native AIR reads are the accumulator |
| `Fixture.FixtureFitsAir` | benchmarks/stwo/iadd256/native-air/src/main.rs:1113-1124 | every case the fixture builder stores at width 256 passes the output check of the native AIR |
| `Fixture.AdderTranspiles` | python/grover_tax/kmx.py:124-182 | the adder file transpiles to one stored copy of the adder over its two registers |

## Left out

- Reading text: comments, whitespace, number and name syntax, JSON and hexadecimal; the models start from token lists, numbers and bytes.
- Error messages, logging, paths, command lines, reports, timing and the KMX equivalence option of the native AIR, which runs an external simulator.
- STWO itself: commitments, FRI, channels, circle domains and SIMD types. Random evaluation points are not modelled, so the step from a field identity at a random point to the formal sums is outside the model.
- Soundness of the mode without range checks, which the program documents as assuming honest limbs; its completeness is proved.
- AirSums.ClaimedSumIsExpected: requires that no combination of a state of a real row, or of a table entry, is zero in the secure field; the program inverts these and the draw makes them nonzero with overwhelming probability.
- AirLookups.HonestLookupsBalance: requires `9 * N * K < p`, so that the counts fit the field; larger counts, and the 32-bit counters wrapping, are not modelled.
- AirLimits.LongTraceEscapes: gives the trace with a wrong output for the row bound; for the lookup bound, `ExactLookupBound` shows chunks outside the tables and does not build a wrong output from them.
- `padded_rows` is exact in `AirProver.ProveRun`; overflow of the row count in a machine word is not modelled.
- The checks of the fixture's version and register width before the run, and the option to limit its samples.
- The SplitMix64 generator and the seeding of shots and cases: every measurement stream is allowed.
- Registers wider than 128 qubits in the kickmix simulator, where the 128-bit shift overflows: `Fuzz.Loadable` leaves them out.
- The `.kmx` files of the adder are not part of this model; the gate list is the one the fixtures store, and the register lines are assumed to be declared once, r0 before r1, least significant qubit first.
- The generator's `hashlib.shake_256` is modelled by the same sponge as the Rust implementation.
- Python dictionaries of registers are modelled as lists in ascending register order, and a register's name by its number.
- The order in which the secure field's batches and lanes are added inside STWO's prefix sums; the model adds batch by batch and row by row.
- Statistics, plots, resource certificates on their own, the wide-Fibonacci stand-ins, the secp256k1 reference and the shell wrappers.
