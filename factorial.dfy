/** Factorials as the engines compute them: BigInt values kept in a memo that
    grows by `m.push(m[m.length-1] * BigInt(m.length))` until it covers the
    argument. */
module Factorials {

  /** n! */
  function Fact(n: nat): (r: nat)
    ensures r >= 1
  {
    if n == 0 then 1 else n * Fact(n - 1)
  }

  /** Factorials grow with their argument. */
  lemma {:induction false} FactMonotone(m: nat, n: nat)
    requires m <= n
    ensures Fact(m) <= Fact(n)
  {
    if m < n {
      FactMonotone(m, n - 1);
      assert Fact(n) == n * Fact(n - 1);
    }
  }

  /** (n+1)! exceeds n copies of n!. */
  lemma FactExceeds(n: nat)
    ensures n * Fact(n) < Fact(n + 1)
  {
    assert Fact(n + 1) == (n + 1) * Fact(n) == n * Fact(n) + Fact(n);
  }

  /** The memo every copy of the source is seeded with. */
  const SourceSeed: seq<nat> := [0, 1]

  /** The seed that makes entry 0 hold 0! as well. */
  const CorrectedSeed: seq<nat> := [1, 1]

  /** The memo growth: append `m[|m|-1] * |m|` while the memo is no longer
      than `n`. */
  function Grow(m: seq<nat>, n: nat): (r: seq<nat>)
    requires m != []
    decreases n + 1 - |m|
  {
    if |m| > n then m else Grow(m + [m[|m| - 1] * |m|], n)
  }

  /** Every cached entry from index 1 on is the factorial of its index. */
  ghost predicate MemoFromOne(m: seq<nat>) {
    |m| >= 2 && forall k :: 1 <= k < |m| ==> m[k] == Fact(k)
  }

  /** Every cached entry is the factorial of its index. */
  ghost predicate FactMemo(m: seq<nat>) {
    MemoFromOne(m) && m[0] == Fact(0)
  }

  /** Growing keeps the cached prefix, covers `n` and extends the memo with
      factorials. */
  lemma {:induction false} GrowFacts(m: seq<nat>, n: nat)
    requires MemoFromOne(m)
    ensures |Grow(m, n)| == if n < |m| then |m| else n + 1
    ensures Grow(m, n)[..|m|] == m
    ensures MemoFromOne(Grow(m, n))
    decreases n + 1 - |m|
  {
    if |m| <= n {
      var m' := m + [m[|m| - 1] * |m|];
      assert m'[|m|] == Fact(|m|);
      GrowFacts(m', n);
      assert Grow(m, n)[..|m|] == Grow(m', n)[..|m'|][..|m|];
    }
  }

  /** `factorial(n)` over the memo `m0`: the while loop that pushes new
      entries, then the lookup. On a memo whose entries are all factorials the
      answer is n! and the memo stays a factorial memo. */
  method MemoFactorial(m0: seq<nat>, n: nat) returns (m: seq<nat>, r: nat)
    requires MemoFromOne(m0)
    ensures m == Grow(m0, n) && n < |m| && r == m[n]
    ensures MemoFromOne(m) && m[..|m0|] == m0
    ensures n >= 1 ==> r == Fact(n)
    ensures FactMemo(m0) ==> FactMemo(m) && r == Fact(n)
  {
    m := m0;
    GrowFacts(m0, n);
    while |m| <= n
      invariant m != [] && Grow(m, n) == Grow(m0, n)
      decreases n + 1 - |m|
    {
      m := m + [m[|m| - 1] * |m|];
    }
    assert |m| > n;
    r := m[n];
  }

  /** Finding: the source's seed answers 0 for 0!. */
  lemma SourceSeedFactorialOfZero()
    ensures MemoFromOne(SourceSeed)
    ensures Grow(SourceSeed, 0)[0] == 0 && Fact(0) == 1
  {
  }

  /** With the corrected seed every answer is a factorial. */
  lemma CorrectedSeedIsFactMemo()
    ensures FactMemo(CorrectedSeed)
  {
  }
}
