/** The combinatorial generators of the model API (`comb`, `perm`, `cart`
    and the swap-based `heapsAlg`), each as the list of what it yields, in
    the order it yields it. The generators that pick positions are modelled
    on the index lists they walk through; `Select` turns an index list into
    the yielded elements. */
module Combinatorics {
  import opened Factorials

  /** Strictly smaller in lexicographic order. */
  predicate LexLess(a: seq<nat>, b: seq<nat>)
    decreases |a|
  {
    a != [] && b != [] && (a[0] < b[0] || (a[0] == b[0] && LexLess(a[1..], b[1..])))
  }

  /** Nothing is lexicographically smaller than itself. */
  lemma {:induction false} LexLessIrreflexive(a: seq<nat>)
    ensures !LexLess(a, a)
    decreases |a|
  {
    if a != [] {
      LexLessIrreflexive(a[1..]);
    }
  }

  /** Every earlier entry is lexicographically smaller than every later one,
      so no entry is repeated. */
  predicate LexSorted(r: seq<seq<nat>>) {
    forall i, j :: 0 <= i < j < |r| ==> LexLess(r[i], r[j])
  }

  lemma LexSortedDistinct(r: seq<seq<nat>>)
    requires LexSorted(r)
    ensures forall i, j :: 0 <= i < j < |r| ==> r[i] != r[j]
  {
    forall i, j | 0 <= i < j < |r| ensures r[i] != r[j] {
      LexLessIrreflexive(r[i]);
    }
  }

  /** `data[index] = x` in front of every list the recursive call yields. */
  function Prefixed(x: nat, A: seq<seq<nat>>): (r: seq<seq<nat>>)
    ensures |r| == |A|
    ensures forall k :: 0 <= k < |r| ==> r[k] == [x] + A[k]
  {
    seq(|A|, k requires 0 <= k < |A| => [x] + A[k])
  }

  lemma PrefixedEmpty(x: nat)
    ensures Prefixed(x, [[]]) == [[x]]
  {
    assert Prefixed(x, [[]])[0] == [x] + [];
    assert [x] + [] == [x];
  }

  lemma PrefixedUnits(x: nat, a: nat, b: nat)
    ensures Prefixed(x, [[a]]) == [[x, a]]
    ensures Prefixed(x, [[a], [b]]) == [[x, a], [x, b]]
  {
    assert Prefixed(x, [[a]])[0] == [x] + [a] == [x, a];
    assert Prefixed(x, [[a], [b]])[0] == [x] + [a] == [x, a];
    assert Prefixed(x, [[a], [b]])[1] == [x] + [b] == [x, b];
  }

  /** One iteration of a generator loop followed by the later iterations,
      whose lists all start above `x`, stays sorted. */
  lemma BlockSorted(x: nat, A: seq<seq<nat>>, B: seq<seq<nat>>)
    requires LexSorted(A) && LexSorted(B)
    requires forall k :: 0 <= k < |B| ==> B[k] != [] && B[k][0] > x
    ensures LexSorted(Prefixed(x, A) + B)
  {
    var r := Prefixed(x, A) + B;
    forall i, j | 0 <= i < j < |r| ensures LexLess(r[i], r[j]) {
      if j < |A| {
        assert r[i][1..] == A[i] && r[j][1..] == A[j];
      } else if i >= |A| {
        assert r[i] == B[i - |A|] && r[j] == B[j - |A|];
      } else {
        assert r[j] == B[j - |A|];
      }
    }
  }

  /** The elements at the given positions. */
  function Select<T>(arr: seq<T>, idx: seq<nat>): (r: seq<T>)
    requires forall k :: 0 <= k < |idx| ==> idx[k] < |arr|
    ensures |r| == |idx| && forall k :: 0 <= k < |idx| ==> r[k] == arr[idx[k]]
  {
    seq(|idx|, k requires 0 <= k < |idx| => arr[idx[k]])
  }

  /** Every position is below `n`. */
  predicate Below(idx: seq<nat>, n: nat) {
    forall k :: 0 <= k < |idx| ==> idx[k] < n
  }

  // ---- comb ----

  /** Strictly increasing. */
  predicate Increasing(c: seq<nat>) {
    forall a, b :: 0 <= a < b < |c| ==> c[a] < c[b]
  }

  /** `k` increasing positions from `i` up to `n`. */
  predicate CombEntry(c: seq<nat>, n: nat, i: nat, k: nat) {
    |c| == k && Increasing(c) && forall a :: 0 <= a < |c| ==> i <= c[a] < n
  }

  /** `combUtil` with `k` positions still to choose, its loop at `i`: the loop
      runs while `i` is a position and at least `k` positions remain. */
  function CombLoop(n: nat, i: nat, k: nat): (r: seq<seq<nat>>)
    decreases n - i
  {
    if k == 0 then [[]]
    else if i < n && n - i >= k then Prefixed(i, CombLoop(n, i + 1, k - 1)) + CombLoop(n, i + 1, k)
    else []
  }

  /** The positions `comb(arr, k)` picks, for an `arr` of length `n`. */
  function Comb(n: nat, k: nat): seq<seq<nat>> {
    CombLoop(n, 0, k)
  }

  /** `comb(arr, k)`. */
  function CombOf<T>(arr: seq<T>, k: nat): (r: seq<seq<T>>)
    ensures |r| == |Comb(|arr|, k)|
  {
    var c := Comb(|arr|, k);
    CombShape(|arr|, 0, k);
    assert forall m :: 0 <= m < |c| ==> c[m] in c;
    seq(|c|, m requires 0 <= m < |c| => Select(arr, c[m]))
  }

  /** Each yielded list has `k` increasing positions from `i` up to `n`. */
  lemma {:induction false} CombShape(n: nat, i: nat, k: nat)
    ensures forall c :: c in CombLoop(n, i, k) ==> CombEntry(c, n, i, k)
    decreases n - i
  {
    if k > 0 && i < n && n - i >= k {
      CombShape(n, i + 1, k - 1);
      CombShape(n, i + 1, k);
      var A := CombLoop(n, i + 1, k - 1);
      forall c | c in Prefixed(i, A) ensures CombEntry(c, n, i, k) {
        var m :| 0 <= m < |A| && c == [i] + A[m];
        assert A[m] in A;
        CombCons(A[m], n, i, k);
      }
      var B := CombLoop(n, i + 1, k);
      forall c | c in B ensures CombEntry(c, n, i, k) {
        assert CombEntry(c, n, i + 1, k);
      }
    }
  }

  lemma CombCons(t: seq<nat>, n: nat, i: nat, k: nat)
    requires k > 0 && i < n && CombEntry(t, n, i + 1, k - 1)
    ensures CombEntry([i] + t, n, i, k)
  {
    var c := [i] + t;
    assert forall a :: 1 <= a < |c| ==> c[a] == t[a - 1];
  }

  /** Every increasing choice of `k` positions from `i` up to `n` is yielded. */
  lemma {:induction false} CombComplete(n: nat, i: nat, k: nat, c: seq<nat>)
    requires CombEntry(c, n, i, k)
    ensures c in CombLoop(n, i, k)
    decreases n - i, 1
  {
    if k == 0 {
      assert c == [];
    } else {
      assert i + k <= n by { IncreasingRoom(c, i, n); }
      if c[0] == i {
        CombCompleteHere(n, i, k, c);
      } else {
        CombSkip(c, n, i, k);
        CombCompleteLater(n, i, k, c);
      }
    }
  }

  /** A choice that starts at `i` is found in the branch that takes `i`. */
  lemma {:induction false} CombCompleteHere(n: nat, i: nat, k: nat, c: seq<nat>)
    requires k > 0 && i + k <= n && CombEntry(c, n, i, k) && c[0] == i
    ensures c in CombLoop(n, i, k)
    decreases n - i, 0
  {
    CombTail(c, n, i, k);
    CombComplete(n, i + 1, k - 1, c[1..]);
    CombHead(n, i, k, c);
  }

  lemma CombHead(n: nat, i: nat, k: nat, c: seq<nat>)
    requires k > 0 && i + k <= n && c != [] && c[0] == i
    requires c[1..] in CombLoop(n, i + 1, k - 1)
    ensures c in CombLoop(n, i, k)
  {
    var A := CombLoop(n, i + 1, k - 1);
    var m :| 0 <= m < |A| && A[m] == c[1..];
    assert Prefixed(i, A)[m] == c;
    assert CombLoop(n, i, k) == Prefixed(i, A) + CombLoop(n, i + 1, k);
  }

  /** A choice that starts after `i` is found in the branch that skips `i`. */
  lemma {:induction false} CombCompleteLater(n: nat, i: nat, k: nat, c: seq<nat>)
    requires k > 0 && i + k <= n && CombEntry(c, n, i + 1, k)
    ensures c in CombLoop(n, i, k)
    decreases n - i, 0
  {
    CombComplete(n, i + 1, k, c);
    assert CombLoop(n, i, k) == Prefixed(i, CombLoop(n, i + 1, k - 1)) + CombLoop(n, i + 1, k);
  }

  lemma CombTail(c: seq<nat>, n: nat, i: nat, k: nat)
    requires k > 0 && CombEntry(c, n, i, k) && c[0] == i
    ensures CombEntry(c[1..], n, i + 1, k - 1)
  {
    var t := c[1..];
    assert forall a :: 0 <= a < |t| ==> t[a] == c[a + 1] && c[0] < c[a + 1];
  }

  lemma CombSkip(c: seq<nat>, n: nat, i: nat, k: nat)
    requires k > 0 && CombEntry(c, n, i, k) && c[0] != i
    ensures CombEntry(c, n, i + 1, k)
  {
    assert forall a :: 0 <= a < |c| ==> c[0] <= c[a];
  }

  /** `k` increasing values from `i` up to `n` need `k` slots. */
  lemma {:induction false} IncreasingRoom(c: seq<nat>, i: nat, n: nat)
    requires Increasing(c) && forall a :: 0 <= a < |c| ==> i <= c[a] < n
    ensures c != [] ==> i + |c| <= n
    decreases |c|
  {
    if c != [] {
      var t := c[1..];
      assert i <= c[0] < n;
      assert forall a :: 0 <= a < |t| ==> t[a] == c[a + 1] && c[0] < c[a + 1];
      IncreasingRoom(t, c[0] + 1, n);
    }
  }

  /** The choices come in lexicographic order, so none is yielded twice. */
  lemma {:induction false} CombSorted(n: nat, i: nat, k: nat)
    ensures LexSorted(CombLoop(n, i, k))
    decreases n - i
  {
    if k > 0 && i < n && n - i >= k {
      CombSorted(n, i + 1, k - 1);
      CombSorted(n, i + 1, k);
      CombShape(n, i + 1, k);
      var B := CombLoop(n, i + 1, k);
      assert forall m :: 0 <= m < |B| ==> B[m] in B;
      BlockSorted(i, CombLoop(n, i + 1, k - 1), B);
    }
  }

  /** Binomial coefficients, by Pascal's rule. */
  function Binom(n: nat, k: nat): nat {
    if k == 0 then 1 else if n == 0 then 0 else Binom(n - 1, k - 1) + Binom(n - 1, k)
  }

  /** `comb` yields n-choose-k lists. */
  lemma {:induction false} CombCount(n: nat, i: nat, k: nat)
    requires i <= n
    ensures |CombLoop(n, i, k)| == Binom(n - i, k)
    decreases n - i
  {
    if k > 0 {
      if i < n && n - i >= k {
        CombCount(n, i + 1, k - 1);
        CombCount(n, i + 1, k);
      } else {
        BinomZero(n - i, k);
      }
    }
  }

  lemma {:induction false} BinomZero(n: nat, k: nat)
    requires n < k
    ensures Binom(n, k) == 0
  {
    if n > 0 {
      BinomZero(n - 1, k - 1);
      BinomZero(n - 1, k);
    }
  }

  /** The documented example: `comb([a,b,c],2)` yields `[a,b]`, `[a,c]`, `[b,c]`. */
  lemma CombExample()
    ensures CombOf(['a', 'b', 'c'], 2) == [['a', 'b'], ['a', 'c'], ['b', 'c']]
  {
    PrefixedEmpty(1);
    PrefixedEmpty(2);
    PrefixedUnits(1, 2, 2);
    PrefixedUnits(0, 1, 2);
    assert CombLoop(3, 3, 1) == [] && CombLoop(3, 3, 0) == [[]] && CombLoop(3, 2, 0) == [[]];
    assert CombLoop(3, 2, 1) == [[2]];
    assert CombLoop(3, 1, 1) == [[1], [2]];
    assert CombLoop(3, 2, 2) == [];
    assert CombLoop(3, 1, 2) == [[1, 2]];
    assert Comb(3, 2) == [[0, 1], [0, 2], [1, 2]];
    var arr := ['a', 'b', 'c'];
    assert Select(arr, [0, 1]) == ['a', 'b'];
    assert Select(arr, [0, 2]) == ['a', 'c'];
    assert Select(arr, [1, 2]) == ['b', 'c'];
  }

  // ---- perm ----

  /** `permUtil` with `k` positions still to choose, `used` the positions
      already chosen and its loop at `i`. */
  function PermLoop(n: nat, k: nat, used: set<nat>, i: nat): (r: seq<seq<nat>>)
    decreases k, n - i
  {
    if k == 0 then [[]]
    else if i >= n then []
    else
      (if i !in used then Prefixed(i, PermLoop(n, k - 1, used + {i}, 0)) else []) + PermLoop(n, k, used, i + 1)
  }

  /** The positions `perm(arr, k)` picks when `k` is not the length of `arr` . */
  function PermIdx(n: nat, k: nat): seq<seq<nat>> {
    PermLoop(n, k, {}, 0)
  }

  /** `perm(arr, k)`: every permutation by the swap generator when `k` is the
      whole length, otherwise the ordered selections of `PermIdx`. */
  function PermOf<T>(arr: seq<T>, k: nat): seq<seq<T>> {
    if k == |arr| then HeapsFrom(arr, 0)
    else
      var p := PermIdx(|arr|, k);
      PermShape(|arr|, k, {}, 0);
      assert forall m :: 0 <= m < |p| ==> p[m] in p;
      seq(|p|, m requires 0 <= m < |p| => Select(arr, p[m]))
  }

  /** No position occurs twice. */
  predicate Distinct(c: seq<nat>) {
    forall a, b :: 0 <= a < b < |c| ==> c[a] != c[b]
  }

  /** `k` distinct positions below `n`, none of them in `used`, the first
      at least `i`. */
  predicate PermEntry(c: seq<nat>, n: nat, k: nat, used: set<nat>, i: nat) {
    |c| == k && Distinct(c) && Below(c, n) && (forall a :: 0 <= a < |c| ==> c[a] !in used) &&
    (k > 0 ==> c[0] >= i)
  }

  /** Each yielded list has `k` distinct positions below `n`, none of them
      used already, the first at least `i`. */
  lemma {:induction false} PermShape(n: nat, k: nat, used: set<nat>, i: nat)
    ensures forall c :: c in PermLoop(n, k, used, i) ==> PermEntry(c, n, k, used, i)
    decreases k, n - i
  {
    if k > 0 && i < n {
      PermShape(n, k, used, i + 1);
      var B := PermLoop(n, k, used, i + 1);
      forall c | c in B ensures PermEntry(c, n, k, used, i) {
        assert PermEntry(c, n, k, used, i + 1);
      }
      if i !in used {
        PermShape(n, k - 1, used + {i}, 0);
        var A := PermLoop(n, k - 1, used + {i}, 0);
        forall c | c in Prefixed(i, A) ensures PermEntry(c, n, k, used, i) {
          var m :| 0 <= m < |A| && c == [i] + A[m];
          assert A[m] in A;
          PermCons(A[m], n, k, used, i);
        }
      }
    }
  }

  lemma PermCons(t: seq<nat>, n: nat, k: nat, used: set<nat>, i: nat)
    requires k > 0 && i < n && i !in used && PermEntry(t, n, k - 1, used + {i}, 0)
    ensures PermEntry([i] + t, n, k, used, i)
  {
    var c := [i] + t;
    assert forall a :: 1 <= a < |c| ==> c[a] == t[a - 1];
  }

  /** Every ordered choice of `k` distinct unused positions below `n`, the
      first at least `i`, is yielded. */
  lemma {:induction false} PermComplete(n: nat, k: nat, used: set<nat>, i: nat, c: seq<nat>)
    requires PermEntry(c, n, k, used, i)
    ensures c in PermLoop(n, k, used, i)
    decreases k, n - i, 1
  {
    if k == 0 {
      assert c == [];
    } else {
      PermFirst(c, n, k, used, i);
      if c[0] == i {
        PermCompleteHere(n, k, used, i, c);
      } else {
        PermCompleteLater(n, k, used, i, c);
      }
    }
  }

  /** A selection that starts at `i` is found in the branch that takes `i`. */
  lemma {:induction false} PermCompleteHere(n: nat, k: nat, used: set<nat>, i: nat, c: seq<nat>)
    requires k > 0 && i < n && i !in used && PermEntry(c, n, k, used, i) && c[0] == i
    ensures c in PermLoop(n, k, used, i)
    decreases k, n - i, 0
  {
    PermTail(c, n, k, used, i);
    PermComplete(n, k - 1, used + {i}, 0, c[1..]);
    PermHead(n, k, used, i, c);
  }

  /** A selection that starts after `i` is found further along the loop. */
  lemma {:induction false} PermCompleteLater(n: nat, k: nat, used: set<nat>, i: nat, c: seq<nat>)
    requires k > 0 && i < n && PermEntry(c, n, k, used, i + 1)
    ensures c in PermLoop(n, k, used, i)
    decreases k, n - i, 0
  {
    PermComplete(n, k, used, i + 1, c);
    PermLater(n, k, used, i, c);
  }

  lemma PermFirst(c: seq<nat>, n: nat, k: nat, used: set<nat>, i: nat)
    requires k > 0 && PermEntry(c, n, k, used, i)
    ensures i <= c[0] < n && c[0] !in used
    ensures c[0] != i ==> PermEntry(c, n, k, used, i + 1)
  {
  }

  lemma PermHead(n: nat, k: nat, used: set<nat>, i: nat, c: seq<nat>)
    requires k > 0 && i < n && i !in used && c != [] && c[0] == i
    requires c[1..] in PermLoop(n, k - 1, used + {i}, 0)
    ensures c in PermLoop(n, k, used, i)
  {
    var A := PermLoop(n, k - 1, used + {i}, 0);
    var m :| 0 <= m < |A| && A[m] == c[1..];
    assert Prefixed(i, A)[m] == c;
    assert PermLoop(n, k, used, i) == Prefixed(i, A) + PermLoop(n, k, used, i + 1);
  }

  lemma PermLater(n: nat, k: nat, used: set<nat>, i: nat, c: seq<nat>)
    requires k > 0 && i < n && c in PermLoop(n, k, used, i + 1)
    ensures c in PermLoop(n, k, used, i)
  {
  }

  lemma PermTail(c: seq<nat>, n: nat, k: nat, used: set<nat>, i: nat)
    requires k > 0 && PermEntry(c, n, k, used, i) && c[0] == i
    ensures PermEntry(c[1..], n, k - 1, used + {i}, 0)
  {
    var t := c[1..];
    assert forall a :: 0 <= a < |t| ==> t[a] == c[a + 1] && c[a + 1] != c[0];
  }

  /** The selections come in lexicographic order, so none is yielded twice. */
  lemma {:induction false} PermSorted(n: nat, k: nat, used: set<nat>, i: nat)
    ensures LexSorted(PermLoop(n, k, used, i))
    decreases k, n - i
  {
    if k > 0 && i < n {
      PermSorted(n, k, used, i + 1);
      var B := PermLoop(n, k, used, i + 1);
      if i !in used {
        PermSorted(n, k - 1, used + {i}, 0);
        PermShape(n, k, used, i + 1);
        assert forall m :: 0 <= m < |B| ==> B[m] in B;
        BlockSorted(i, PermLoop(n, k - 1, used + {i}, 0), B);
      } else {
        assert PermLoop(n, k, used, i) == B;
      }
    }
  }

  /** The documented example: `perm([a,b,c],2)` yields
      `[a,b] [a,c] [b,a] [b,c] [c,a] [c,b]`. */
  lemma PermExample()
    ensures PermIdx(3, 2) == [[0, 1], [0, 2], [1, 0], [1, 2], [2, 0], [2, 1]]
  {
    PermFromZero();
  }

  /** The loop of `PermExample` from position 0 on. */
  lemma PermFromZero()
    ensures PermLoop(3, 2, {}, 0) == [[0, 1], [0, 2], [1, 0], [1, 2], [2, 0], [2, 1]]
  {
    PermFromOne();
    PermLast(0, 1, 2);
    PrefixedUnits(0, 1, 2);
    PermUnfold(3, 2, {}, 0);
    assert {} + {0} == {0};
    var first, rest := Prefixed(0, PermLoop(3, 1, {0}, 0)), PermLoop(3, 2, {}, 1);
    assert first == [[0, 1], [0, 2]];
    assert PermLoop(3, 2, {}, 0) == first + rest;
    Concat2x4(first, rest, [0, 1], [0, 2], [1, 0], [1, 2], [2, 0], [2, 1]);
  }

  /** The loop of `PermExample` from position 1 on. */
  lemma PermFromOne()
    ensures PermLoop(3, 2, {}, 1) == [[1, 0], [1, 2], [2, 0], [2, 1]]
  {
    PermFromTwo();
    PermLast(1, 0, 2);
    PrefixedUnits(1, 0, 2);
    PermUnfold(3, 2, {}, 1);
    assert {} + {1} == {1};
    var first, rest := Prefixed(1, PermLoop(3, 1, {1}, 0)), PermLoop(3, 2, {}, 2);
    assert first == [[1, 0], [1, 2]];
    assert PermLoop(3, 2, {}, 1) == first + rest;
  }

  /** The loop of `PermExample` from position 2 on. */
  lemma PermFromTwo()
    ensures PermLoop(3, 2, {}, 2) == [[2, 0], [2, 1]]
  {
    PermLast(2, 0, 1);
    PrefixedUnits(2, 0, 1);
    assert PermLoop(3, 2, {}, 3) == [];
  }

  lemma Concat2x4(a: seq<seq<nat>>, b: seq<seq<nat>>, x0: seq<nat>, x1: seq<nat>, y0: seq<nat>, y1: seq<nat>, y2: seq<nat>, y3: seq<nat>)
    requires a == [x0, x1] && b == [y0, y1, y2, y3]
    ensures a + b == [x0, x1, y0, y1, y2, y3]
  {
  }

  /** One turn of the loop of `permUtil` at an unused position. */
  lemma PermUnfold(n: nat, k: nat, used: set<nat>, i: nat)
    requires k > 0 && i < n && i !in used
    ensures PermLoop(n, k, used, i) == Prefixed(i, PermLoop(n, k - 1, used + {i}, 0)) + PermLoop(n, k, used, i + 1)
  {
  }

  /** With one of three positions used, the other two remain, in order. */
  lemma PermLast(u: nat, a: nat, b: nat)
    requires u <= 2 && a == (if u == 0 then 1 else 0) && b == (if u == 2 then 1 else 2)
    ensures PermLoop(3, 1, {u}, 0) == [[a], [b]]
  {
    PrefixedEmpty(0);
    PrefixedEmpty(1);
    PrefixedEmpty(2);
    assert PermLoop(3, 0, {u, 0}, 0) == [[]] && PermLoop(3, 0, {u, 1}, 0) == [[]] && PermLoop(3, 0, {u, 2}, 0) == [[]];
    assert PermLoop(3, 1, {u}, 3) == [];
    assert PermLoop(3, 1, {u}, 2) == if u == 2 then [] else [[2]];
    assert PermLoop(3, 1, {u}, 1) == (if u == 1 then [] else [[1]]) + PermLoop(3, 1, {u}, 2);
  }


  // ---- cart ----

  /** `cartUtil(index)` for the sets from `index` on, given by their lengths. */
  function CartIdx(lens: seq<nat>): (r: seq<seq<nat>>)
    decreases |lens|, if lens == [] then 0 else lens[0] + 1
  {
    if lens == [] then [[]] else CartRow(lens, 0)
  }

  /** The loop of `cartUtil` over the first set, at position `x`. */
  function CartRow(lens: seq<nat>, x: nat): (r: seq<seq<nat>>)
    requires lens != [] && x <= lens[0]
    decreases |lens|, lens[0] - x
  {
    if x == lens[0] then [] else Prefixed(x, CartIdx(lens[1..])) + CartRow(lens, x + 1)
  }

  /** `cart(...sets)`. */
  function CartOf<T>(sets: seq<seq<T>>): (r: seq<seq<T>>)
  {
    var lens := seq(|sets|, i requires 0 <= i < |sets| => |sets[i]|);
    var c := CartIdx(lens);
    CartShape(lens);
    assert forall m :: 0 <= m < |c| ==> c[m] in c;
    seq(|c|, m requires 0 <= m < |c| => seq(|sets|, i requires 0 <= i < |sets| => sets[i][c[m][i]]))
  }

  /** A tuple of positions, one into each set. */
  predicate InBox(t: seq<nat>, lens: seq<nat>) {
    |t| == |lens| && forall i :: 0 <= i < |t| ==> t[i] < lens[i]
  }

  lemma {:induction false} CartShape(lens: seq<nat>)
    ensures forall t :: t in CartIdx(lens) ==> InBox(t, lens)
    decreases |lens|, if lens == [] then 0 else lens[0] + 1
  {
    if lens != [] {
      CartRowShape(lens, 0);
    }
  }

  lemma {:induction false} CartRowShape(lens: seq<nat>, x: nat)
    requires lens != [] && x <= lens[0]
    ensures forall t :: t in CartRow(lens, x) ==> InBox(t, lens) && t[0] >= x
    decreases |lens|, lens[0] - x
  {
    if x < lens[0] {
      CartShape(lens[1..]);
      CartRowShape(lens, x + 1);
      var A := CartIdx(lens[1..]);
      forall t | t in Prefixed(x, A) ensures InBox(t, lens) && t[0] >= x {
        var m :| 0 <= m < |A| && t == [x] + A[m];
        assert A[m] in A;
        assert InBox(A[m], lens[1..]);
        assert forall i :: 1 <= i < |t| ==> t[i] == A[m][i - 1] && lens[i] == lens[1..][i - 1];
      }
    }
  }

  /** Every tuple of positions is yielded. */
  lemma {:induction false} CartComplete(lens: seq<nat>, t: seq<nat>)
    requires InBox(t, lens)
    ensures t in CartIdx(lens)
    decreases |lens|, if lens == [] then 0 else lens[0] + 1
  {
    if lens != [] {
      CartRowComplete(lens, 0, t);
    } else {
      assert t == [];
    }
  }

  lemma {:induction false} CartRowComplete(lens: seq<nat>, x: nat, t: seq<nat>)
    requires lens != [] && x <= lens[0] && InBox(t, lens) && t[0] >= x
    ensures t in CartRow(lens, x)
    decreases |lens|, lens[0] - x
  {
    if t[0] == x {
      var rest := t[1..];
      assert forall i :: 0 <= i < |rest| ==> rest[i] == t[i + 1] && lens[1..][i] == lens[i + 1];
      CartComplete(lens[1..], rest);
      var A := CartIdx(lens[1..]);
      var m :| 0 <= m < |A| && A[m] == rest;
      assert Prefixed(x, A)[m] == t;
    } else {
      CartRowComplete(lens, x + 1, t);
    }
  }

  /** The tuples come in lexicographic order, so none is yielded twice. */
  lemma {:induction false} CartSorted(lens: seq<nat>)
    ensures LexSorted(CartIdx(lens))
    decreases |lens|, if lens == [] then 0 else lens[0] + 1
  {
    if lens != [] {
      CartRowSorted(lens, 0);
    }
  }

  lemma {:induction false} CartRowSorted(lens: seq<nat>, x: nat)
    requires lens != [] && x <= lens[0]
    ensures LexSorted(CartRow(lens, x))
    decreases |lens|, lens[0] - x
  {
    if x < lens[0] {
      CartSorted(lens[1..]);
      CartRowSorted(lens, x + 1);
      CartRowShape(lens, x + 1);
      var B := CartRow(lens, x + 1);
      assert forall m :: 0 <= m < |B| ==> B[m] in B;
      BlockSorted(x, CartIdx(lens[1..]), B);
    }
  }

  /** `m` copies of `f`, added up. */
  function Times(m: nat, f: nat): nat {
    if m == 0 then 0 else f + Times(m - 1, f)
  }

  lemma {:induction false} TimesIsProduct(m: nat, f: nat)
    ensures Times(m, f) == m * f
  {
    if m > 0 {
      TimesIsProduct(m - 1, f);
    }
  }

  /** The product of the lengths. */
  function Product(lens: seq<nat>): nat {
    if lens == [] then 1 else lens[0] * Product(lens[1..])
  }

  /** `cart` yields as many tuples as the product of the set sizes. */
  lemma {:induction false} CartCount(lens: seq<nat>)
    ensures |CartIdx(lens)| == Product(lens)
    decreases |lens|, if lens == [] then 0 else lens[0] + 1
  {
    if lens != [] {
      CartRowCount(lens, 0);
      TimesIsProduct(lens[0], Product(lens[1..]));
    }
  }

  lemma {:induction false} CartRowCount(lens: seq<nat>, x: nat)
    requires lens != [] && x <= lens[0]
    ensures |CartRow(lens, x)| == Times(lens[0] - x, Product(lens[1..]))
    decreases |lens|, lens[0] - x
  {
    if x < lens[0] {
      var f, m := Product(lens[1..]), lens[0] - (x + 1);
      CartCount(lens[1..]);
      CartRowCount(lens, x + 1);
      assert |CartRow(lens, x)| == f + |CartRow(lens, x + 1)|;
      assert Times(m + 1, f) == f + Times(m, f);
    }
  }

  // ---- heapsAlg ----

  /** `[arr[i], arr[j]] = [arr[j], arr[i]]`. */
  function Swap<T>(a: seq<T>, i: nat, j: nat): (r: seq<T>)
    requires i < |a| && j < |a|
    ensures |r| == |a| && r[i] == a[j] && r[j] == a[i]
    ensures forall k :: 0 <= k < |a| && k != i && k != j ==> r[k] == a[k]
  {
    a[i := a[j]][j := a[i]]
  }

  lemma SwapPermutes<T>(a: seq<T>, i: nat, j: nat)
    requires i < |a| && j < |a|
    ensures multiset(Swap(a, i, j)) == multiset(a)
  {
  }

  /** The snapshots of the array `heapsUtil(index)` yields. */
  function HeapsFrom<T>(a: seq<T>, index: nat): seq<seq<T>>
    requires index <= |a|
    decreases |a| - index, 1
  {
    if index == |a| then [a] else HeapsLoop(a, index, index)
  }

  /** Its loop at `j`: swap, recurse, swap back, so every iteration starts
      from the same array. */
  function HeapsLoop<T>(a: seq<T>, index: nat, j: nat): seq<seq<T>>
    requires index < |a| && index <= j <= |a|
    decreases |a| - index, 0, |a| - j
  {
    if j == |a| then [] else HeapsFrom(Swap(a, index, j), index + 1) + HeapsLoop(a, index, j + 1)
  }

  /** `heapsAlg` yields (n - index)! arrays. */
  lemma {:induction false} HeapsCount<T>(a: seq<T>, index: nat)
    requires index <= |a|
    ensures |HeapsFrom(a, index)| == Fact(|a| - index)
    decreases |a| - index, 1
  {
    if index < |a| {
      HeapsLoopCount(a, index, index, Fact(|a| - index - 1));
      TimesIsProduct(|a| - index, Fact(|a| - index - 1));
    }
  }

  lemma {:induction false} HeapsLoopCount<T>(a: seq<T>, index: nat, j: nat, f: nat)
    requires index < |a| && index <= j <= |a| && f == Fact(|a| - index - 1)
    ensures |HeapsLoop(a, index, j)| == Times(|a| - j, f)
    decreases |a| - index, 0, |a| - j
  {
    if j < |a| {
      var s := Swap(a, index, j);
      assert HeapsLoop(a, index, j) == HeapsFrom(s, index + 1) + HeapsLoop(a, index, j + 1);
      var A := HeapsFrom(s, index + 1);
      var B := HeapsLoop(a, index, j + 1);
      assert |HeapsLoop(a, index, j)| == |A| + |B|;
      assert |s| - (index + 1) == |a| - index - 1;
      HeapsCount(s, index + 1);
      assert |A| == f;
      HeapsLoopCount(a, index, j + 1, f);
      assert |B| == Times(|a| - j - 1, f);
      assert Times(|a| - j, f) == f + Times(|a| - j - 1, f);
    }
  }

  /** Every snapshot is a permutation of the array that keeps the positions
      before `index`. */
  lemma {:induction false} HeapsPermutes<T>(a: seq<T>, index: nat)
    requires index <= |a|
    ensures forall b :: b in HeapsFrom(a, index) ==>
      |b| == |a| && multiset(b) == multiset(a) && b[..index] == a[..index]
    decreases |a| - index, 1
  {
    if index < |a| {
      HeapsLoopPermutes(a, index, index);
    }
  }

  lemma {:induction false} HeapsLoopPermutes<T>(a: seq<T>, index: nat, j: nat)
    requires index < |a| && index <= j <= |a|
    ensures forall b :: b in HeapsLoop(a, index, j) ==>
      |b| == |a| && multiset(b) == multiset(a) && b[..index] == a[..index]
    decreases |a| - index, 0, |a| - j
  {
    if j < |a| {
      var s := Swap(a, index, j);
      HeapsPermutes(s, index + 1);
      HeapsLoopPermutes(a, index, j + 1);
      forall b | b in HeapsFrom(s, index + 1) ensures b[..index] == a[..index] {
        assert b[..index] == b[..index + 1][..index] == s[..index + 1][..index];
      }
    }
  }

  /** The element at `index` of every snapshot from iteration `j` is `a[j]`. */
  lemma HeapsLoopHead<T>(a: seq<T>, index: nat, j: nat)
    requires index < |a| && index <= j < |a|
    ensures forall b :: b in HeapsFrom(Swap(a, index, j), index + 1) ==> |b| == |a| && b[index] == a[j]
  {
    var s := Swap(a, index, j);
    HeapsPermutes(s, index + 1);
    forall b | b in HeapsFrom(s, index + 1) ensures b[index] == a[j] {
      assert b[index] == b[..index + 1][index];
    }
  }

  /** On an array without repeated elements no two snapshots are equal. */
  lemma {:induction false} HeapsDistinct<T>(a: seq<T>, index: nat)
    requires index <= |a|
    requires forall x, y :: 0 <= x < y < |a| ==> a[x] != a[y]
    ensures forall x, y :: 0 <= x < y < |HeapsFrom(a, index)| ==> HeapsFrom(a, index)[x] != HeapsFrom(a, index)[y]
    decreases |a| - index, 1
  {
    if index < |a| {
      HeapsLoopDistinct(a, index, index);
    }
  }

  lemma {:induction false} HeapsLoopDistinct<T>(a: seq<T>, index: nat, j: nat)
    requires index < |a| && index <= j <= |a|
    requires forall x, y :: 0 <= x < y < |a| ==> a[x] != a[y]
    ensures forall x, y :: 0 <= x < y < |HeapsLoop(a, index, j)| ==> HeapsLoop(a, index, j)[x] != HeapsLoop(a, index, j)[y]
    ensures forall b :: b in HeapsLoop(a, index, j) ==> |b| == |a| && exists k :: j <= k < |a| && b[index] == a[k]
    decreases |a| - index, 0, |a| - j
  {
    if j < |a| {
      var s := Swap(a, index, j);
      var A, B := HeapsFrom(s, index + 1), HeapsLoop(a, index, j + 1);
      SwapKeepsDistinct(a, index, j);
      HeapsDistinct(s, index + 1);
      HeapsLoopDistinct(a, index, j + 1);
      HeapsLoopHead(a, index, j);
      JoinDistinct(a, index, j, A, B);
      assert HeapsLoop(a, index, j) == A + B;
    }
  }

  /** Swapping two positions of an array without repeats leaves none. */
  lemma SwapKeepsDistinct<T>(a: seq<T>, i: nat, j: nat)
    requires i < |a| && j < |a|
    requires forall x, y :: 0 <= x < y < |a| ==> a[x] != a[y]
    ensures forall x, y :: 0 <= x < y < |Swap(a, i, j)| ==> Swap(a, i, j)[x] != Swap(a, i, j)[y]
  {
    var s := Swap(a, i, j);
    forall x, y | 0 <= x < y < |s| ensures s[x] != s[y] {
      var x' := if x == i then j else if x == j then i else x;
      var y' := if y == i then j else if y == j then i else y;
      assert s[x] == a[x'] && s[y] == a[y'] && x' != y';
    }
  }

  /** The snapshots of iteration `j` all hold `a[j]` at `index` and the later
      ones never do, so joining two repeat-free blocks leaves no repeats. */
  lemma JoinDistinct<T>(a: seq<T>, index: nat, j: nat, A: seq<seq<T>>, B: seq<seq<T>>)
    requires index < |a| && j < |a|
    requires forall x, y :: 0 <= x < y < |a| ==> a[x] != a[y]
    requires forall x, y :: 0 <= x < y < |A| ==> A[x] != A[y]
    requires forall x, y :: 0 <= x < y < |B| ==> B[x] != B[y]
    requires forall b :: b in A ==> |b| == |a| && b[index] == a[j]
    requires forall b :: b in B ==> |b| == |a| && exists k :: j + 1 <= k < |a| && b[index] == a[k]
    ensures forall x, y :: 0 <= x < y < |A + B| ==> (A + B)[x] != (A + B)[y]
    ensures forall b :: b in A + B ==> |b| == |a| && exists k :: j <= k < |a| && b[index] == a[k]
  {
    var r := A + B;
    forall x, y | 0 <= x < y < |r| ensures r[x] != r[y] {
      if x < |A| && y >= |A| {
        assert r[x] in A && r[y] == B[y - |A|] && B[y - |A|] in B;
        var k :| j + 1 <= k < |a| && r[y][index] == a[k];
        assert r[x][index] == a[j];
      } else if x >= |A| {
        assert r[x] == B[x - |A|] && r[y] == B[y - |A|];
      }
    }
    forall b | b in r ensures |b| == |a| && exists k :: j <= k < |a| && b[index] == a[k] {
      if b in A {
        assert b[index] == a[j];
      }
    }
  }
}
