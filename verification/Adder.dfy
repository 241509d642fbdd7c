/**
 The in-place adder `(r0, r1) := (r0 + r1 mod 2^n, r1)` behind `iadd8`, `iadd64`
 and `iadd256`: qubits `0 .. n-1` hold r0, qubits `n .. 2n-1` hold r1, and the
 top qubit of r1 doubles as the carry wire.
 */
module Adder {
  import opened Binary
  import opened Classical

  // ---------------------------------------------------------------- the gate list

  /** Copy wire `w` onto every qubit of `lo .. hi-1`. */
  function Spread(w: nat, lo: nat, hi: nat): seq<Gate>
    decreases hi - lo
  {
    if lo >= hi then [] else [Cnot(w, lo)] + Spread(w, lo + 1, hi)
  }

  function RippleGates(n: nat, i: nat): seq<Gate>
    requires n >= 3
  {
    if i <= n - 3 then [Cnot(2 * n - 1, n + i), Cnot(2 * n - 1, i), Toffoli(i, n + i, 2 * n - 1)]
    else [Cnot(2 * n - 1, n + i), Cnot(2 * n - 1, i)]
  }

  /** Carry propagation for bits `i .. n-2`. */
  function Ripple(n: nat, i: nat): seq<Gate>
    requires n >= 3
    decreases n - i
  {
    if i >= n - 1 then [] else RippleGates(n, i) + Ripple(n, i + 1)
  }

  function UnrippleGates(n: nat, i: nat): seq<Gate>
    requires n >= 3 && i >= 1
  {
    [Cnot(2 * n - 1, n + i), Cnot(n + i, i), Toffoli(i - 1, n + i - 1, 2 * n - 1)]
  }

  /** Sum formation and carry removal for bits `i .. 1`. */
  function Unripple(n: nat, i: nat): seq<Gate>
    requires n >= 3
  {
    if i == 0 then [] else UnrippleGates(n, i) + Unripple(n, i - 1)
  }

  function Opening(n: nat): seq<Gate>
    requires n >= 3
  {
    var w := 2 * n - 1;
    [Cnot(w, n - 1)] + Spread(w, 1, n) + Spread(w, n + 1, w) + [Toffoli(0, n, w)]
  }

  function Turn(n: nat): seq<Gate>
    requires n >= 3
  {
    [Cnot(2 * n - 1, n - 1), Toffoli(n - 2, 2 * n - 2, n - 1)]
  }

  function Closing(n: nat): seq<Gate>
    requires n >= 3
  {
    var w := 2 * n - 1;
    [Cnot(n, 0)] + Spread(w, n + 1, w) + Spread(w, 1, n) + [Cnot(w, n - 1)]
  }

  function AdderGates(n: nat): seq<Gate>
    requires n >= 3
  {
    Opening(n) + Ripple(n, 1) + Turn(n) + Unripple(n, n - 2) + Closing(n)
  }

  // ---------------------------------------------------------------- binary addition

  function Majority(a: bool, b: bool, c: bool): bool {
    (a && b) || (a && c) || (b && c)
  }

  /** The carry into bit `i` when adding bits `0 ..` of `x` and `y`. */
  function Carry(x: seq<bool>, y: seq<bool>, i: nat): bool
    requires i <= |x| && i <= |y|
  {
    i > 0 && Majority(x[i - 1], y[i - 1], Carry(x, y, i - 1))
  }

  function SumBit(x: seq<bool>, y: seq<bool>, i: nat): bool
    requires i < |x| && i < |y|
  {
    (x[i] != y[i]) != Carry(x, y, i)
  }

  function SumBits(x: seq<bool>, y: seq<bool>): (s: seq<bool>)
    requires |x| == |y|
    ensures |s| == |x|
  {
    seq(|x|, i requires 0 <= i < |x| => SumBit(x, y, i))
  }

  lemma {:induction false} FullAdder(x: bool, y: bool, c: bool, p: nat)
    ensures Weight((x != y) != c, p) + Weight(Majority(x, y, c), 2 * p) == Weight(x, p) + Weight(y, p) + Weight(c, p)
  {
  }

  /** Schoolbook addition: the first `k` sum bits and the carry out of them are the sum of the first `k` bits. */
  lemma {:induction false} SumPrefix(x: seq<bool>, y: seq<bool>, k: nat)
    requires |x| == |y| && k <= |x|
    ensures BitsValue(SumBits(x, y)[..k]) + Weight(Carry(x, y, k), Pow2(k))
         == BitsValue(x[..k]) + BitsValue(y[..k])
  {
    if k > 0 {
      SumPrefix(x, y, k - 1);
      PrefixValue(SumBits(x, y), k);
      PrefixValue(x, k);
      PrefixValue(y, k);
      FullAdder(x[k - 1], y[k - 1], Carry(x, y, k - 1), Pow2(k - 1));
    }
  }

  lemma {:induction false} PrefixValue(s: seq<bool>, k: nat)
    requires 0 < k <= |s|
    ensures BitsValue(s[..k]) == BitsValue(s[..k - 1]) + Weight(s[k - 1], Pow2(k - 1))
  {
    assert s[..k] == s[..k - 1] + [s[k - 1]];
    BitsValueAppend(s[..k - 1], s[k - 1]);
  }

  lemma {:induction false} SumBitsTotal(x: seq<bool>, y: seq<bool>)
    requires |x| == |y|
    ensures BitsValue(SumBits(x, y)) + Weight(Carry(x, y, |x|), Pow2(|x|)) == BitsValue(x) + BitsValue(y)
  {
    SumPrefix(x, y, |x|);
    assert SumBits(x, y)[..|x|] == SumBits(x, y) && x[..|x|] == x && y[..|x|] == y;
  }

  /** The sum bits of two `n`-bit numbers are their sum modulo `2^n`. */
  lemma {:induction false} SumBitsValue(x: seq<bool>, y: seq<bool>, p: nat)
    requires |x| == |y| && p == Pow2(|x|)
    ensures BitsValue(SumBits(x, y)) == (BitsValue(x) + BitsValue(y)) % p
  {
    var total, s := BitsValue(x) + BitsValue(y), BitsValue(SumBits(x, y));
    assert total % p == s by {
      SumBitsTotal(x, y);
      BitsValueBound(SumBits(x, y));
      DropCarry(total, s, Carry(x, y, |x|), p);
    }
  }

  lemma {:induction false} DropCarry(total: nat, s: nat, c: bool, p: nat)
    requires s < p && total == s + Weight(c, p)
    ensures total % p == s
  {
    DivModUnique(total, p, Bit(c), s);
  }

  // ---------------------------------------------------------------- what the phases do

  /** `c[i]` is the carry into bit `i` of the two registers of `q`. */
  ghost predicate IsCarries(q: seq<bool>, n: nat, c: seq<bool>) {
    && 2 * n <= |q| && |c| == n + 1 && !c[0]
    && forall i | 0 <= i < n :: CarryAt(q, n, c, i)
  }

  ghost predicate CarryAt(q: seq<bool>, n: nat, c: seq<bool>, i: nat)
    requires 2 * n <= |q| && |c| == n + 1 && i < n
  {
    c[i + 1] == (c[i] != ((q[i] != c[i]) && (q[n + i] != c[i])))
  }

  /** `q'` is `q` with wire `w` copied onto `lo .. hi-1`. */
  ghost predicate SpreadMove(w: nat, lo: nat, hi: nat, q: seq<bool>, q': seq<bool>) {
    && w < |q| && |q'| == |q|
    && forall j | 0 <= j < |q| :: q'[j] == if lo <= j < hi then q[j] != q[w] else q[j]
  }

  lemma {:induction false} SpreadFits(w: nat, lo: nat, hi: nat, width: nat)
    requires w < width && hi <= width
    ensures AllFit(Spread(w, lo, hi), width)
    decreases hi - lo
  {
    if lo < hi {
      SpreadFits(w, lo + 1, hi, width);
    }
  }

  lemma {:induction false} SpreadEffect(w: nat, lo: nat, hi: nat, q: seq<bool>)
    requires w < |q| && hi <= |q| && !(lo <= w < hi)
    ensures AllFit(Spread(w, lo, hi), |q|)
    ensures SpreadMove(w, lo, hi, q, ApplyAll(Spread(w, lo, hi), q))
    decreases hi - lo
  {
    SpreadFits(w, lo, hi, |q|);
    if lo < hi {
      var q1 := Apply(Cnot(w, lo), q);
      SpreadEffect(w, lo + 1, hi, q1);
      assert Spread(w, lo, hi)[1..] == Spread(w, lo + 1, hi);
    }
  }

  /** Qubit `j` once bits `1 .. i-1` carry their ripple and bits `i .. n-2` still hold the top bit. */
  function Rippled(q: seq<bool>, n: nat, c: seq<bool>, i: nat, j: nat): bool
    requires n >= 3 && 2 * n <= |q| && |c| == n + 1 && 1 <= i <= n - 1 && j < |q|
  {
    var top := q[2 * n - 1];
    if j == 2 * n - 1 then top != c[if i <= n - 2 then i else n - 2]
    else if 1 <= j <= n - 2 then q[j] != if j < i then c[j] else top
    else if n + 1 <= j <= 2 * n - 2 then q[j] != if j - n < i then c[j - n] else top
    else q[j]
  }

  ghost predicate IsRippled(q0: seq<bool>, n: nat, c: seq<bool>, i: nat, q: seq<bool>)
    requires n >= 3 && IsCarries(q0, n, c) && 1 <= i <= n - 1
  {
    |q| == |q0| && forall j: nat | j < |q0| :: q[j] == Rippled(q0, n, c, i, j)
  }

  /** Qubit `j` once bits `n-2 .. i+1` hold their sum and the carry wire is back at bit `i`. */
  function Unrippled(q: seq<bool>, n: nat, c: seq<bool>, i: nat, j: nat): bool
    requires n >= 3 && 2 * n <= |q| && |c| == n + 1 && i <= n - 2 && j < |q|
  {
    var top := q[2 * n - 1];
    if j == 2 * n - 1 then top != c[i]
    else if j == n - 1 then (q[j] != top) != c[n - 1]
    else if j < n - 1 then
      if j <= i then q[j] != c[j] else ((q[j] != q[n + j]) != c[j]) != top
    else if n <= j <= 2 * n - 2 then
      if j - n <= i then q[j] != c[j - n] else q[j] != top
    else q[j]
  }

  ghost predicate IsUnrippled(q0: seq<bool>, n: nat, c: seq<bool>, i: nat, q: seq<bool>)
    requires n >= 3 && IsCarries(q0, n, c) && i <= n - 2
  {
    |q| == |q0| && forall j: nat | j < |q0| :: q[j] == Unrippled(q0, n, c, i, j)
  }

  /** Qubit `j` after the addition. */
  function Added(q: seq<bool>, n: nat, c: seq<bool>, j: nat): bool
    requires 2 * n <= |q| && |c| == n + 1 && j < |q|
  {
    if j < n then (q[j] != q[n + j]) != c[j] else q[j]
  }

  ghost predicate IsAdded(q0: seq<bool>, n: nat, c: seq<bool>, q: seq<bool>)
    requires IsCarries(q0, n, c)
  {
    |q| == |q0| && forall j: nat | j < |q0| :: q[j] == Added(q0, n, c, j)
  }

  lemma {:induction false} OpeningState(n: nat, c: seq<bool>, q: seq<bool>, q2: seq<bool>, q3: seq<bool>)
    requires n >= 3 && IsCarries(q, n, c)
    requires SpreadMove(2 * n - 1, 1, n, Apply(Cnot(2 * n - 1, n - 1), q), q2)
    requires SpreadMove(2 * n - 1, n + 1, 2 * n - 1, q2, q3)
    ensures IsRippled(q, n, c, 1, Apply(Toffoli(0, n, 2 * n - 1), q3))
  {
    assert CarryAt(q, n, c, 0);
  }

  lemma {:induction false} OpeningEffect(n: nat, c: seq<bool>, q: seq<bool>)
    requires n >= 3 && IsCarries(q, n, c)
    ensures AllFit(Opening(n), |q|)
    ensures IsRippled(q, n, c, 1, ApplyAll(Opening(n), q))
  {
    var w := 2 * n - 1;
    var q1 := Apply(Cnot(w, n - 1), q);
    SpreadEffect(w, 1, n, q1);
    var q2 := ApplyAll(Spread(w, 1, n), q1);
    SpreadEffect(w, n + 1, w, q2);
    var q3 := ApplyAll(Spread(w, n + 1, w), q2);
    OpeningState(n, c, q, q2, q3);
    Sandwich(Cnot(w, n - 1), Spread(w, 1, n), Spread(w, n + 1, w), Toffoli(0, n, w), q);
  }

  /** A gate, two lists and a gate, run one after the other. */
  lemma {:induction false} Sandwich(g: Gate, a: seq<Gate>, b: seq<Gate>, h: Gate, q: seq<bool>)
    requires Fits(g, |q|) && AllFit(a, |q|) && AllFit(b, |q|) && Fits(h, |q|)
    ensures AllFit([g] + a + b + [h], |q|)
    ensures ApplyAll([g] + a + b + [h], q) == Apply(h, ApplyAll(b, ApplyAll(a, Apply(g, q))))
  {
    ApplyOne(g, q);
    ApplyConcat([g], a, q);
    ApplyConcat([g] + a, b, q);
    ApplyConcat([g] + a + b, [h], q);
    ApplyOne(h, ApplyAll(b, ApplyAll(a, Apply(g, q))));
  }

  lemma {:induction false} ApplyPair(g: Gate, h: Gate, q: seq<bool>)
    requires Fits(g, |q|) && Fits(h, |q|)
    ensures AllFit([g, h], |q|) && ApplyAll([g, h], q) == Apply(h, Apply(g, q))
  {
    assert [g, h][1..] == [h];
    ApplyOne(h, Apply(g, q));
  }

  lemma {:induction false} ApplyTriple(g: Gate, h: Gate, k: Gate, q: seq<bool>)
    requires Fits(g, |q|) && Fits(h, |q|) && Fits(k, |q|)
    ensures AllFit([g, h, k], |q|) && ApplyAll([g, h, k], q) == Apply(k, Apply(h, Apply(g, q)))
  {
    assert [g, h, k][1..] == [h, k];
    ApplyPair(h, k, Apply(g, q));
  }

  /** `q'` is `q` after the gates of ripple step `i`. */
  ghost predicate RippleMove(n: nat, i: nat, q: seq<bool>, q': seq<bool>)
    requires n >= 3 && 2 * n <= |q| && 1 <= i <= n - 2
  {
    var w := 2 * n - 1;
    && |q'| == |q|
    && q'[n + i] == (q[n + i] != q[w])
    && q'[i] == (q[i] != q[w])
    && q'[w] == (if i <= n - 3 then q[w] != (q'[i] && q'[n + i]) else q[w])
    && forall j | 0 <= j < |q| && j != w && j != i && j != n + i :: q'[j] == q[j]
  }

  lemma {:induction false} RippleGatesMove(n: nat, i: nat, q: seq<bool>)
    requires n >= 3 && 2 * n <= |q| && 1 <= i <= n - 2
    ensures AllFit(RippleGates(n, i), |q|)
    ensures RippleMove(n, i, q, ApplyAll(RippleGates(n, i), q))
  {
    var w := 2 * n - 1;
    var q2 := Apply(Cnot(w, i), Apply(Cnot(w, n + i), q));
    if i <= n - 3 {
      var q3 := Apply(Toffoli(i, n + i, w), q2);
      assert RippleMove(n, i, q, q3);
      ApplyTriple(Cnot(w, n + i), Cnot(w, i), Toffoli(i, n + i, w), q);
    } else {
      assert RippleMove(n, i, q, q2);
      ApplyPair(Cnot(w, n + i), Cnot(w, i), q);
    }
  }

  lemma {:induction false} RippleStep(q0: seq<bool>, n: nat, c: seq<bool>, i: nat, q: seq<bool>, q': seq<bool>)
    requires n >= 3 && IsCarries(q0, n, c) && 1 <= i <= n - 2
    requires IsRippled(q0, n, c, i, q) && RippleMove(n, i, q, q')
    ensures IsRippled(q0, n, c, i + 1, q')
  {
    var w := 2 * n - 1;
    assert CarryAt(q0, n, c, i);
    forall j: nat | j < |q0| ensures q'[j] == Rippled(q0, n, c, i + 1, j) {
      if j != w && j != i && j != n + i {
        assert q'[j] == q[j] == Rippled(q0, n, c, i, j);
      }
    }
  }

  lemma {:induction false} RippleEffect(q0: seq<bool>, n: nat, c: seq<bool>, i: nat, q: seq<bool>)
    requires n >= 3 && IsCarries(q0, n, c) && 1 <= i <= n - 1 && IsRippled(q0, n, c, i, q)
    ensures AllFit(Ripple(n, i), |q|)
    ensures IsRippled(q0, n, c, n - 1, ApplyAll(Ripple(n, i), q))
    decreases n - i
  {
    if i < n - 1 {
      RippleGatesMove(n, i, q);
      var q1 := ApplyAll(RippleGates(n, i), q);
      RippleStep(q0, n, c, i, q, q1);
      RippleEffect(q0, n, c, i + 1, q1);
      ApplyConcat(RippleGates(n, i), Ripple(n, i + 1), q);
    }
  }

  lemma {:induction false} TurnState(q0: seq<bool>, n: nat, c: seq<bool>, q: seq<bool>)
    requires n >= 3 && IsCarries(q0, n, c) && IsRippled(q0, n, c, n - 1, q)
    ensures IsUnrippled(q0, n, c, n - 2,
              Apply(Toffoli(n - 2, 2 * n - 2, n - 1), Apply(Cnot(2 * n - 1, n - 1), q)))
  {
    assert CarryAt(q0, n, c, n - 2);
  }

  lemma {:induction false} TurnEffect(q0: seq<bool>, n: nat, c: seq<bool>, q: seq<bool>)
    requires n >= 3 && IsCarries(q0, n, c) && IsRippled(q0, n, c, n - 1, q)
    ensures AllFit(Turn(n), |q|)
    ensures IsUnrippled(q0, n, c, n - 2, ApplyAll(Turn(n), q))
  {
    TurnState(q0, n, c, q);
    ApplyPair(Cnot(2 * n - 1, n - 1), Toffoli(n - 2, 2 * n - 2, n - 1), q);
  }

  /** `q'` is `q` after the gates of unripple step `i`. */
  ghost predicate UnrippleMove(n: nat, i: nat, q: seq<bool>, q': seq<bool>)
    requires n >= 3 && 2 * n <= |q| && 1 <= i <= n - 2
  {
    var w := 2 * n - 1;
    && |q'| == |q|
    && q'[n + i] == (q[n + i] != q[w])
    && q'[i] == (q[i] != q'[n + i])
    && q'[w] == (q[w] != (q[i - 1] && q[n + i - 1]))
    && forall j | 0 <= j < |q| && j != w && j != i && j != n + i :: q'[j] == q[j]
  }

  lemma {:induction false} UnrippleMoveHolds(n: nat, i: nat, q: seq<bool>)
    requires n >= 3 && 2 * n <= |q| && 1 <= i <= n - 2
    ensures UnrippleMove(n, i, q, Apply(Toffoli(i - 1, n + i - 1, 2 * n - 1),
                                    Apply(Cnot(n + i, i), Apply(Cnot(2 * n - 1, n + i), q))))
  {
  }

  lemma {:induction false} UnrippleGatesMove(n: nat, i: nat, q: seq<bool>)
    requires n >= 3 && 2 * n <= |q| && 1 <= i <= n - 2
    ensures AllFit(UnrippleGates(n, i), |q|)
    ensures UnrippleMove(n, i, q, ApplyAll(UnrippleGates(n, i), q))
  {
    UnrippleMoveHolds(n, i, q);
    ApplyTriple(Cnot(2 * n - 1, n + i), Cnot(n + i, i), Toffoli(i - 1, n + i - 1, 2 * n - 1), q);
  }

  lemma {:induction false} UnrippleStep(q0: seq<bool>, n: nat, c: seq<bool>, i: nat, q: seq<bool>, q': seq<bool>)
    requires n >= 3 && IsCarries(q0, n, c) && 1 <= i <= n - 2
    requires IsUnrippled(q0, n, c, i, q) && UnrippleMove(n, i, q, q')
    ensures IsUnrippled(q0, n, c, i - 1, q')
  {
    var w := 2 * n - 1;
    assert CarryAt(q0, n, c, i - 1);
    forall j: nat | j < |q0| ensures q'[j] == Unrippled(q0, n, c, i - 1, j) {
      if j != w && j != i && j != n + i {
        assert q'[j] == q[j] == Unrippled(q0, n, c, i, j);
      }
    }
  }

  lemma {:induction false} UnrippleEffect(q0: seq<bool>, n: nat, c: seq<bool>, i: nat, q: seq<bool>)
    requires n >= 3 && IsCarries(q0, n, c) && i <= n - 2 && IsUnrippled(q0, n, c, i, q)
    ensures AllFit(Unripple(n, i), |q|)
    ensures IsUnrippled(q0, n, c, 0, ApplyAll(Unripple(n, i), q))
  {
    if i > 0 {
      UnrippleGatesMove(n, i, q);
      var q1 := ApplyAll(UnrippleGates(n, i), q);
      UnrippleStep(q0, n, c, i, q, q1);
      UnrippleEffect(q0, n, c, i - 1, q1);
      ApplyConcat(UnrippleGates(n, i), Unripple(n, i - 1), q);
    }
  }

  lemma {:induction false} ClosingState(q0: seq<bool>, n: nat, c: seq<bool>, q: seq<bool>, q2: seq<bool>, q3: seq<bool>)
    requires n >= 3 && IsCarries(q0, n, c) && IsUnrippled(q0, n, c, 0, q)
    requires SpreadMove(2 * n - 1, n + 1, 2 * n - 1, Apply(Cnot(n, 0), q), q2)
    requires SpreadMove(2 * n - 1, 1, n, q2, q3)
    ensures IsAdded(q0, n, c, Apply(Cnot(2 * n - 1, n - 1), q3))
  {
  }

  lemma {:induction false} ClosingEffect(q0: seq<bool>, n: nat, c: seq<bool>, q: seq<bool>)
    requires n >= 3 && IsCarries(q0, n, c) && IsUnrippled(q0, n, c, 0, q)
    ensures AllFit(Closing(n), |q|)
    ensures IsAdded(q0, n, c, ApplyAll(Closing(n), q))
  {
    var w := 2 * n - 1;
    var q1 := Apply(Cnot(n, 0), q);
    SpreadEffect(w, n + 1, w, q1);
    var q2 := ApplyAll(Spread(w, n + 1, w), q1);
    SpreadEffect(w, 1, n, q2);
    var q3 := ApplyAll(Spread(w, 1, n), q2);
    ClosingState(q0, n, c, q, q2, q3);
    Sandwich(Cnot(n, 0), Spread(w, n + 1, w), Spread(w, 1, n), Cnot(w, n - 1), q);
  }

  /** Every width, every input: the gate list adds r1 into r0 and restores everything else. */
  lemma {:induction false} AdderEffect(n: nat, c: seq<bool>, q: seq<bool>)
    requires n >= 3 && IsCarries(q, n, c)
    ensures AllFit(AdderGates(n), |q|)
    ensures IsAdded(q, n, c, ApplyAll(AdderGates(n), q))
  {
    OpeningEffect(n, c, q);
    var q1 := ApplyAll(Opening(n), q);
    RippleEffect(q, n, c, 1, q1);
    ApplyConcat(Opening(n), Ripple(n, 1), q);
    var q2 := ApplyAll(Ripple(n, 1), q1);
    TurnEffect(q, n, c, q2);
    ApplyConcat(Opening(n) + Ripple(n, 1), Turn(n), q);
    var q3 := ApplyAll(Turn(n), q2);
    UnrippleEffect(q, n, c, n - 2, q3);
    ApplyConcat(Opening(n) + Ripple(n, 1) + Turn(n), Unripple(n, n - 2), q);
    var q4 := ApplyAll(Unripple(n, n - 2), q3);
    ClosingEffect(q, n, c, q4);
    ApplyConcat(Opening(n) + Ripple(n, 1) + Turn(n) + Unripple(n, n - 2), Closing(n), q);
  }

  // ---------------------------------------------------------------- main results

  function R0(q: seq<bool>, n: nat): seq<bool>
    requires n <= |q|
  {
    q[..n]
  }

  function R1(q: seq<bool>, n: nat): seq<bool>
    requires 2 * n <= |q|
  {
    q[n..2 * n]
  }

  lemma {:induction false} CarriesExist(q: seq<bool>, n: nat) returns (c: seq<bool>)
    requires 2 * n <= |q|
    ensures IsCarries(q, n, c)
    ensures forall i | 0 <= i <= n :: c[i] == Carry(R0(q, n), R1(q, n), i)
  {
    c := seq(n + 1, i requires 0 <= i <= n => Carry(R0(q, n), R1(q, n), i));
  }

  lemma {:induction false} AddedIsSum(n: nat, c: seq<bool>, q: seq<bool>, q': seq<bool>)
    requires IsCarries(q, n, c) && IsAdded(q, n, c, q')
    requires forall i | 0 <= i <= n :: c[i] == Carry(R0(q, n), R1(q, n), i)
    ensures q' == SumBits(R0(q, n), R1(q, n)) + q[n..]
  {
    hide Carry;
    var x, y := R0(q, n), R1(q, n);
    var sum := SumBits(x, y) + q[n..];
    forall j: nat | j < |q| ensures q'[j] == sum[j] {
      assert q'[j] == Added(q, n, c, j);
      if j < n {
        assert x[j] == q[j] && y[j] == q[n + j] && c[j] == Carry(x, y, j);
        assert sum[j] == SumBit(x, y, j);
      } else {
        assert sum[j] == q[n..][j - n];
      }
    }
  }

  /**
   For every width n >= 3 and every state, the gate list puts the sum bits of
   the two registers into r0 and leaves every other qubit as it was, r1 and its
   borrowed top bit included.
   */
  lemma {:induction false} AdderAdds(n: nat, q: seq<bool>)
    requires n >= 3 && 2 * n <= |q|
    ensures AllFit(AdderGates(n), |q|)
    ensures ApplyAll(AdderGates(n), q) == SumBits(R0(q, n), R1(q, n)) + q[n..]
  {
    var c := CarriesExist(q, n);
    AdderEffect(n, c, q);
    AddedIsSum(n, c, q, ApplyAll(AdderGates(n), q));
  }

  /** `q'` is `q` with `k` times r1 added into r0 and nothing else changed. */
  ghost predicate AddedTimes(n: nat, k: nat, p: nat, q: seq<bool>, q': seq<bool>)
    requires 2 * n <= |q| && p > 0
  {
    && |q'| == |q|
    && q'[n..] == q[n..]
    && BitsValue(R0(q', n)) == (BitsValue(R0(q, n)) + k * BitsValue(R1(q, n))) % p
  }

  lemma {:induction false} AddedZeroTimes(n: nat, p: nat, q: seq<bool>)
    requires 2 * n <= |q| && p == Pow2(n)
    ensures AddedTimes(n, 0, p, q, q)
  {
    BitsValueBound(R0(q, n));
    DivModUnique(BitsValue(R0(q, n)), p, 0, BitsValue(R0(q, n)));
  }

  lemma {:induction false} AddedOnceMore(n: nat, k: nat, p: nat, q: seq<bool>, q1: seq<bool>, q': seq<bool>)
    requires 2 * n <= |q| && p == Pow2(n) && k > 0
    requires q1 == SumBits(R0(q, n), R1(q, n)) + q[n..]
    requires AddedTimes(n, k - 1, p, q1, q')
    ensures AddedTimes(n, k, p, q, q')
  {
    assert q1[n..] == q[n..] && R0(q1, n) == SumBits(R0(q, n), R1(q, n));
    assert R1(q1, n) == q1[n..][..n] && R1(q, n) == q[n..][..n];
    SumBitsValue(R0(q, n), R1(q, n), p);
    AddOnce(BitsValue(R0(q, n)), BitsValue(R1(q, n)), k, p);
  }

  /** `k` runs of the adder add `k` times r1 into r0, modulo `2^n`. */
  lemma {:induction false} RepeatedAdderAdds(n: nat, k: nat, q: seq<bool>)
    requires n >= 3 && 2 * n <= |q|
    ensures AllFit(Repeat(AdderGates(n), k), |q|)
    ensures AddedTimes(n, k, Pow2(n), q, ApplyAll(Repeat(AdderGates(n), k), q))
    decreases k
  {
    if k == 0 {
      AddedZeroTimes(n, Pow2(n), q);
    } else {
      AdderAdds(n, q);
      var q1 := ApplyAll(AdderGates(n), q);
      RepeatedAdderAdds(n, k - 1, q1);
      ApplyConcat(AdderGates(n), Repeat(AdderGates(n), k - 1), q);
      AddedOnceMore(n, k, Pow2(n), q, q1, ApplyAll(Repeat(AdderGates(n), k - 1), q1));
    }
  }

  lemma {:induction false} AddOnce(x: nat, y: nat, k: nat, p: nat)
    requires p > 0 && k > 0
    ensures ((x + y) % p + (k - 1) * y) % p == (x + k * y) % p
  {
    var a, b := (x + y) % p, (x + y) / p;
    var r, d := (a + (k - 1) * y) % p, (a + (k - 1) * y) / p;
    assert x + k * y == (x + y) + (k - 1) * y;
    assert x + y == a + p * b && a + (k - 1) * y == r + p * d;
    assert p * b + p * d == p * (b + d);
    DivModUnique(x + k * y, p, b + d, r);
  }

  function CountToffoli(gs: seq<Gate>): nat {
    if gs == [] then 0 else (if gs[0].Toffoli? then 1 else 0) + CountToffoli(gs[1..])
  }

  lemma {:induction false} CountConcat(a: seq<Gate>, b: seq<Gate>)
    ensures CountToffoli(a + b) == CountToffoli(a) + CountToffoli(b)
    decreases |a|
  {
    if a == [] {
      assert a + b == b;
    } else {
      assert (a + b)[1..] == a[1..] + b;
      CountConcat(a[1..], b);
    }
  }

  lemma {:induction false} CountOne(g: Gate)
    ensures CountToffoli([g]) == if g.Toffoli? then 1 else 0
  {
    assert [g][1..] == [];
  }

  lemma {:induction false} CountSpread(w: nat, lo: nat, hi: nat)
    ensures CountToffoli(Spread(w, lo, hi)) == 0
    ensures |Spread(w, lo, hi)| == if lo < hi then hi - lo else 0
    decreases hi - lo
  {
    if lo < hi {
      CountSpread(w, lo + 1, hi);
    }
  }

  lemma {:induction false} CountTriple(g: Gate, h: Gate, k: Gate)
    ensures CountToffoli([g, h]) == CountToffoli([g]) + CountToffoli([h])
    ensures CountToffoli([g, h, k]) == CountToffoli([g]) + CountToffoli([h]) + CountToffoli([k])
  {
    assert [g, h] == [g] + [h] && [g, h, k] == [g, h] + [k];
    CountConcat([g], [h]);
    CountConcat([g, h], [k]);
  }

  lemma {:induction false} CountRipple(n: nat, i: nat)
    requires n >= 3 && 1 <= i <= n - 1
    ensures CountToffoli(Ripple(n, i)) == if i <= n - 2 then n - 2 - i else 0
    ensures |Ripple(n, i)| == if i <= n - 2 then 3 * (n - 1 - i) - 1 else 0
    decreases n - i
  {
    if i <= n - 2 {
      var w := 2 * n - 1;
      CountTriple(Cnot(w, n + i), Cnot(w, i), Toffoli(i, n + i, w));
      CountOne(Cnot(w, n + i));
      CountOne(Cnot(w, i));
      CountOne(Toffoli(i, n + i, w));
      CountRipple(n, i + 1);
      CountConcat(RippleGates(n, i), Ripple(n, i + 1));
    }
  }

  lemma {:induction false} CountUnripple(n: nat, i: nat)
    requires n >= 3
    ensures CountToffoli(Unripple(n, i)) == i && |Unripple(n, i)| == 3 * i
  {
    if i > 0 {
      var w := 2 * n - 1;
      CountTriple(Cnot(w, n + i), Cnot(n + i, i), Toffoli(i - 1, n + i - 1, w));
      CountOne(Cnot(w, n + i));
      CountOne(Cnot(n + i, i));
      CountOne(Toffoli(i - 1, n + i - 1, w));
      CountUnripple(n, i - 1);
      CountConcat(UnrippleGates(n, i), Unripple(n, i - 1));
    }
  }

  /** `[g] + a + b + [h]` */
  lemma {:induction false} CountSandwich(g: Gate, a: seq<Gate>, b: seq<Gate>, h: Gate)
    ensures CountToffoli([g] + a + b + [h])
         == CountToffoli([g]) + CountToffoli(a) + CountToffoli(b) + CountToffoli([h])
  {
    CountConcat([g], a);
    CountConcat([g] + a, b);
    CountConcat([g] + a + b, [h]);
  }

  lemma {:induction false} CountEnds(n: nat)
    requires n >= 3
    ensures CountToffoli(Opening(n)) == 1 && |Opening(n)| == 2 * n - 1
    ensures CountToffoli(Turn(n)) == 1 && |Turn(n)| == 2
    ensures CountToffoli(Closing(n)) == 0 && |Closing(n)| == 2 * n - 1
  {
    var w := 2 * n - 1;
    CountSpread(w, 1, n);
    CountSpread(w, n + 1, w);
    CountSandwich(Cnot(w, n - 1), Spread(w, 1, n), Spread(w, n + 1, w), Toffoli(0, n, w));
    CountSandwich(Cnot(n, 0), Spread(w, n + 1, w), Spread(w, 1, n), Cnot(w, n - 1));
    CountTriple(Cnot(w, n - 1), Toffoli(n - 2, 2 * n - 2, n - 1), Cnot(n, 0));
    CountOne(Cnot(w, n - 1));
    CountOne(Toffoli(0, n, w));
    CountOne(Cnot(n, 0));
    CountOne(Toffoli(n - 2, 2 * n - 2, n - 1));
  }

  /** One adder has `2n - 3` Toffoli gates and `8n - 10` CNOT gates. */
  lemma {:induction false} AdderCounts(n: nat)
    requires n >= 3
    ensures CountToffoli(AdderGates(n)) == 2 * n - 3
    ensures |AdderGates(n)| == (8 * n - 10) + (2 * n - 3)
  {
    CountEnds(n);
    CountRipple(n, 1);
    CountUnripple(n, n - 2);
    hide CountToffoli, Opening, Ripple, Turn, Unripple, Closing;
    CountConcat(Opening(n), Ripple(n, 1));
    CountConcat(Opening(n) + Ripple(n, 1), Turn(n));
    CountConcat(Opening(n) + Ripple(n, 1) + Turn(n), Unripple(n, n - 2));
    CountConcat(Opening(n) + Ripple(n, 1) + Turn(n) + Unripple(n, n - 2), Closing(n));
  }

  lemma {:induction false} RepeatCounts(gs: seq<Gate>, k: nat)
    ensures |Repeat(gs, k)| == k * |gs|
    ensures CountToffoli(Repeat(gs, k)) == k * CountToffoli(gs)
  {
    if k > 0 {
      RepeatCounts(gs, k - 1);
      CountConcat(gs, Repeat(gs, k - 1));
    }
  }
}
