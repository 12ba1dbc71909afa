/** Clique probabilities and the random draw that samples them.

    `probs` weighs each clique of a location by the factorial of its number
    of parent states and reports `floor(w_i * 10000 / Σ w) / 10000`; the model
    keeps the integer numerator `floor(w_i * 10000 / Σ w)` (the final
    division by 10000 is floating point). The observers then draw an index by
    subtracting probabilities from a uniform random number until it drops to
    zero or below; here the probabilities are exact reals and the random
    number is a parameter. */
module Probabilities {
  import opened SeqUtil
  import opened Factorials

  /** Σ w for a list of weights. */
  function Total(ws: seq<nat>): nat {
    if ws == [] then 0 else Total(ws[..|ws| - 1]) + ws[|ws| - 1]
  }

  /** The numerator of one probability. */
  function Share(w: nat, tot: nat): nat
    requires tot > 0
  {
    w * 10000 / tot
  }

  /** The sum of the numerators of a list of weights over a common total. */
  function ShareSum(ws: seq<nat>, tot: nat): nat
    requires tot > 0
  {
    if ws == [] then 0 else ShareSum(ws[..|ws| - 1], tot) + Share(ws[|ws| - 1], tot)
  }

  /** The factorial weights of a list of clique sizes. */
  function FactWeights(lens: seq<nat>): (ws: seq<nat>)
    ensures |ws| == |lens| && forall i {:trigger ws[i]} :: 0 <= i < |lens| ==> ws[i] == Fact(lens[i])
  {
    seq(|lens|, i requires 0 <= i < |lens| => Fact(lens[i]))
  }

  /** Factorial weights are positive, so their total is at least their count. */
  lemma {:induction false} FactTotalPositive(lens: seq<nat>)
    ensures Total(FactWeights(lens)) >= |lens|
  {
    if lens != [] {
      var ws := FactWeights(lens);
      FactTotalPositive(lens[..|lens| - 1]);
      assert FactWeights(lens[..|lens| - 1]) == ws[..|ws| - 1];
    }
  }

  /** `probs(cliques)` with the clique sizes `lens`: the first loop computes
      the factorial weights and their running total, the second divides. */
  method Probs(m0: seq<nat>, lens: seq<nat>) returns (m: seq<nat>, p: seq<nat>)
    requires MemoFromOne(m0)
    requires FactMemo(m0) || forall i :: 0 <= i < |lens| ==> lens[i] >= 1
    ensures MemoFromOne(m) && (FactMemo(m0) ==> FactMemo(m)) && |p| == |lens|
    ensures lens != [] ==> Total(FactWeights(lens)) > 0
    ensures forall i :: 0 <= i < |p| ==> p[i] == Share(Fact(lens[i]), Total(FactWeights(lens)))
  {
    m := m0;
    var tot := 0;
    var xs: seq<nat> := [];
    var i := 0;
    while i < |lens|
      invariant 0 <= i <= |lens| && MemoFromOne(m) && (FactMemo(m0) ==> FactMemo(m))
      invariant xs == FactWeights(lens[..i]) && tot == Total(xs)
    {
      var y;
      m, y := MemoFactorial(m, lens[i]);
      WeightsSnoc(lens, i, xs);
      xs := xs + [y];
      tot := tot + y;
      i := i + 1;
    }
    assert lens[..|lens|] == lens;
    FactTotalPositive(lens);
    p := [];
    i := 0;
    while i < |xs|
      invariant 0 <= i <= |xs| && |p| == i
      invariant forall k :: 0 <= k < i ==> p[k] == Share(xs[k], tot)
    {
      p := p + [Share(xs[i], tot)];
      i := i + 1;
    }
  }

  /** One more size adds its factorial to the weights and to their total. */
  lemma WeightsSnoc(lens: seq<nat>, i: nat, xs: seq<nat>)
    requires i < |lens| && xs == FactWeights(lens[..i])
    ensures xs + [Fact(lens[i])] == FactWeights(lens[..i + 1])
    ensures Total(xs + [Fact(lens[i])]) == Total(xs) + Fact(lens[i])
  {
    assert (xs + [Fact(lens[i])])[..|xs|] == xs;
  }


  lemma ShareStep(w: nat, tot: nat)
    requires tot > 0
    ensures Share(w, tot) * tot <= w * 10000 < (Share(w, tot) + 1) * tot
  {
    var q, rem := w * 10000 / tot, w * 10000 % tot;
    assert w * 10000 == q * tot + rem && 0 <= rem < tot;
    assert (q + 1) * tot == q * tot + tot;
  }

  /** Each numerator is the floor of its exact share: the numerators times
      the total stay within one total per entry of 10000 times the weights. */
  lemma {:induction false} ShareSumBounds(ws: seq<nat>, tot: nat)
    requires tot > 0
    ensures ShareSum(ws, tot) * tot <= 10000 * Total(ws)
    ensures 10000 * Total(ws) <= ShareSum(ws, tot) * tot + |ws| * (tot - 1)
  {
    if ws != [] {
      var init, w := ws[..|ws| - 1], ws[|ws| - 1];
      ShareSumBounds(init, tot);
      ShareStep(w, tot);
      BoundsStep(ShareSum(init, tot), Share(w, tot), Total(init), w, |init|, tot);
    }
  }

  /** Adding one weight and its numerator keeps both bounds. */
  lemma BoundsStep(a: nat, s: nat, t0: nat, w: nat, n: nat, tot: nat)
    requires tot > 0
    requires a * tot <= 10000 * t0 <= a * tot + n * (tot - 1)
    requires s * tot <= w * 10000 < (s + 1) * tot
    ensures (a + s) * tot <= 10000 * (t0 + w)
    ensures 10000 * (t0 + w) <= (a + s) * tot + (n + 1) * (tot - 1)
  {
    assert (a + s) * tot == a * tot + s * tot;
    assert (s + 1) * tot == s * tot + tot;
    assert (n + 1) * (tot - 1) == n * (tot - 1) + (tot - 1);
  }


  /** The probabilities of a location are each at most 1, sum to at most 1,
      and lose less than 1/10000 per clique to rounding. */
  lemma ProbsBounds(lens: seq<nat>)
    requires lens != []
    ensures Total(FactWeights(lens)) > 0
    ensures forall i :: 0 <= i < |lens| ==> Share(Fact(lens[i]), Total(FactWeights(lens))) <= 10000
    ensures ShareSum(FactWeights(lens), Total(FactWeights(lens))) <= 10000
    ensures 10000 - |lens| < ShareSum(FactWeights(lens), Total(FactWeights(lens)))
  {
    var ws := FactWeights(lens);
    FactTotalPositive(lens);
    var t := Total(ws);
    forall i | 0 <= i < |lens| ensures Share(Fact(lens[i]), t) <= 10000 {
      WeightBelowTotal(ws, i);
      ShareStep(ws[i], t);
      CancelBelow(Share(ws[i], t), ws[i], t);
    }
    ShareSumBounds(ws, t);
    SumBounds(ShareSum(ws, t), |ws|, t);
  }

  lemma CancelBelow(s: nat, w: nat, t: nat)
    requires t > 0 && w <= t && s * t <= w * 10000
    ensures s <= 10000
  {
    assert w * 10000 <= t * 10000;
    MulCancel(s, 10000, t);
  }

  lemma SumBounds(s: nat, n: nat, t: nat)
    requires t > 0 && n > 0 && s * t <= 10000 * t && 10000 * t <= s * t + n * (t - 1)
    ensures s <= 10000 && 10000 - n < s
  {
    MulCancel(s, 10000, t);
    assert n * (t - 1) == n * t - n;
    assert (s + n) * t == s * t + n * t;
    MulCancelStrict(10000, s + n, t);
  }

  lemma {:induction false} MulSign(x: int, t: int)
    requires t > 0
    ensures x >= 0 ==> x * t >= 0
    decreases if x < 0 then 0 else x
  {
    if x > 0 {
      MulSign(x - 1, t);
      assert x * t == (x - 1) * t + t;
    }
  }

  lemma MulCancel(a: int, b: int, t: int)
    requires t > 0 && a * t <= b * t
    ensures a <= b
  {
    MulSign(a - b - 1, t);
    assert (a - b - 1) * t == a * t - b * t - t;
  }

  lemma MulCancelStrict(a: int, b: int, t: int)
    requires t > 0 && a * t < b * t
    ensures a < b
  {
    MulSign(a - b, t);
    assert (a - b) * t == a * t - b * t;
  }

  lemma {:induction false} WeightBelowTotal(ws: seq<nat>, i: nat)
    requires i < |ws|
    ensures ws[i] <= Total(ws)
  {
    if i < |ws| - 1 {
      WeightBelowTotal(ws[..|ws| - 1], i);
    }
  }

  // ---- the draw ----

  /** Σ P[0..k). */
  function Cumulative(P: seq<real>, k: nat): real
    requires k <= |P|
  {
    if k == 0 then 0.0 else Cumulative(P, k - 1) + P[k - 1]
  }

  /** The index the draw loop stops at, when it may run while `k < limit`. */
  function DrawIndex(P: seq<real>, r: real, limit: int, k: nat): nat
    requires limit <= |P|
    decreases limit - k
  {
    if k >= limit then k
    else if r - P[k] <= 0.0 then k
    else DrawIndex(P, r - P[k], limit, k + 1)
  }

  /** The draw stops at the first index whose running sum reaches `r`, or at
      `limit` when none below it does. */
  lemma {:induction false} DrawIndexFirst(P: seq<real>, r: real, limit: int, k: nat)
    requires limit <= |P| && k <= |P|
    ensures var n := DrawIndex(P, r, limit, k);
      k <= n && (n == k || n <= limit) &&
      (forall j :: k < j <= n ==> Cumulative(P, j) - Cumulative(P, k) < r) &&
      (n < limit ==> r <= Cumulative(P, n + 1) - Cumulative(P, k))
    decreases limit - k
  {
    if k < limit && r - P[k] > 0.0 {
      DrawIndexFirst(P, r - P[k], limit, k + 1);
      var n := DrawIndex(P, r, limit, k);
      forall j | k < j <= n ensures Cumulative(P, j) - Cumulative(P, k) < r {
        assert j > k + 1 ==> Cumulative(P, j) - Cumulative(P, k + 1) < r - P[k];
      }
    }
  }

  /** The loop `for (ndx = 0; ndx < limit; ndx++) { r -= P[ndx]; if (r <= 0) break; }`. */
  method DrawLoop(P: seq<real>, r0: real, limit: int) returns (ndx: nat)
    requires limit <= |P|
    ensures ndx == DrawIndex(P, r0, limit, 0)
  {
    ndx := 0;
    var r := r0;
    while ndx < limit
      invariant DrawIndex(P, r, limit, ndx) == DrawIndex(P, r0, limit, 0)
      decreases limit - ndx
    {
      r := r - P[ndx];
      if r <= 0.0 {
        break;
      }
      ndx := ndx + 1;
    }
  }

  /** The draw as the source writes it, with bound `P.length - 2`. */
  method DrawAsWritten(P: seq<real>, r: real) returns (ndx: nat)
    requires |P| >= 1
    ensures ndx < |P| && ndx == DrawIndex(P, r, |P| - 2, 0)
    ensures |P| >= 2 ==> ndx < |P| - 1
  {
    ndx := DrawLoop(P, r, |P| - 2);
    DrawIndexFirst(P, r, |P| - 2, 0);
  }

  /** Finding: with two equally likely cliques, a draw of 0.75 picks the
      first one, and no draw ever picks the second. */
  lemma DrawAsWrittenMissesLast()
    ensures DrawIndex([0.5, 0.5], 0.75, 0, 0) == 0
    ensures DrawIndex([0.5, 0.5], 0.75, 1, 0) == 1
    ensures forall r :: DrawIndex([0.5, 0.5], r, 0, 0) == 0
  {
  }

  /** The draw with bound `P.length - 1`: it returns an index of `P`, the
      running sum before it stays below `r`, and unless it is the last index
      the running sum through it reaches `r`. */
  method Draw(P: seq<real>, r: real) returns (ndx: nat)
    requires |P| >= 1
    ensures ndx < |P| && ndx == DrawIndex(P, r, |P| - 1, 0)
    ensures Cumulative(P, ndx) < r || ndx == 0
    ensures ndx < |P| - 1 ==> r <= Cumulative(P, ndx + 1)
  {
    ndx := DrawLoop(P, r, |P| - 1);
    DrawIndexFirst(P, r, |P| - 1, 0);
  }

  /** Every entry with positive probability can be drawn by the corrected
      draw: the draw `Σ P[0..k) + P[k]/2` lands on `k`. */
  lemma EveryEntryDrawable(P: seq<real>, k: nat)
    requires k < |P| && P[k] > 0.0
    requires forall j :: 0 <= j < |P| ==> P[j] >= 0.0
    ensures DrawIndex(P, Cumulative(P, k) + P[k] / 2.0, |P| - 1, 0) == k
  {
    var r := Cumulative(P, k) + P[k] / 2.0;
    var n := DrawIndex(P, r, |P| - 1, 0);
    DrawIndexFirst(P, r, |P| - 1, 0);
    CumulativeMonotone(P, if n < k then n + 1 else k, k);
    assert Cumulative(P, k + 1) == Cumulative(P, k) + P[k] && Cumulative(P, 0) == 0.0;
  }

  lemma {:induction false} CumulativeMonotone(P: seq<real>, i: nat, j: nat)
    requires i <= j <= |P|
    requires forall t :: 0 <= t < |P| ==> P[t] >= 0.0
    ensures Cumulative(P, i) <= Cumulative(P, j)
    decreases j - i
  {
    if i < j {
      CumulativeMonotone(P, i, j - 1);
    }
  }
}
