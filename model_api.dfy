/** The stateful parts of the model API (`lib/ModelAPI.js` and its copy
    `modules/ModelAPI.mjs`): the id counter, the factorial memo, the in-place
    Fisher–Yates `shuffle` and the swap generator `heapsAlg` on an array. The
    pure generators are in `Combinatorics`, `BronKerbosch(V,N)` is
    `MaximalCliques.BronKerbosch`, and `rewriteStr` is in `StringRewrite`. */
module ModelApi {
  import opened Factorials
  import opened Combinatorics

  class Api {
    /** `_id`: the next id to hand out. */
    var nextId: nat
    /** `_fmem`: the factorial memo. */
    var fmem: seq<nat>

    /** Every memo entry from index 1 on is the factorial of its index, and
        entry 0 keeps the seed's 0. */
    ghost predicate Valid()
      reads this
    {
      MemoFromOne(fmem) && fmem[0] == SourceSeed[0]
    }

    /** A fresh API object starts its ids at 0 and its memo at the seed
        `[0, 1]`. */
    constructor()
      ensures nextId == 0 && fmem == SourceSeed && Valid()
    {
      nextId := 0;
      fmem := SourceSeed;
    }

    /** `id()`: hands out the counter and moves it on, so successive calls
        give 0, 1, 2, … */
    method Id() returns (r: nat)
      modifies this
      ensures r == old(nextId) && nextId == old(nextId) + 1 && fmem == old(fmem)
    {
      r := nextId;
      nextId := nextId + 1;
    }

    /** `factorial(n)`: n! for every `n` from 1, and the seed's 0 for
        `n == 0`, growing the memo as far as `n`. */
    method Factorial(n: nat) returns (r: nat)
      requires Valid()
      modifies this
      ensures Valid() && (n >= 1 ==> r == Fact(n)) && (n == 0 ==> r == 0)
      ensures fmem == Grow(old(fmem), n) && nextId == old(nextId)
    {
      var m;
      m, r := MemoFactorial(fmem, n);
      fmem := m;
    }
  }

  /** `Math.floor(x * (i + 1))` for a random `x` in [0, 1): an index from 0
      to `i`. */
  function Pick(x: real, i: nat): (j: nat)
    requires 0.0 <= x < 1.0
    ensures j <= i
  {
    PickBounds(x, i);
    (x * (i + 1) as real).Floor
  }

  lemma PickBounds(x: real, i: nat)
    requires 0.0 <= x < 1.0
    ensures 0.0 <= x * (i + 1) as real < (i + 1) as real
  {
  }

  /** Draws that `Math.random` can return. */
  predicate UnitDraws(r: seq<real>) {
    forall k :: 0 <= k < |r| ==> 0.0 <= r[k] < 1.0
  }

  /** The Fisher–Yates loop from `i` down to 1, where the iteration for `i`
      uses the draw `r[i]`. */
  function ShuffleFrom<T>(a: seq<T>, r: seq<real>, i: int): seq<T>
    requires i < |a| <= |r| && UnitDraws(r)
    decreases i
  {
    if i <= 0 then a else ShuffleFrom(Swap(a, i, Pick(r[i], i)), r, i - 1)
  }

  /** Shuffling only rearranges the elements. */
  lemma {:induction false} ShufflePermutes<T>(a: seq<T>, r: seq<real>, i: int)
    requires i < |a| <= |r| && UnitDraws(r)
    ensures |ShuffleFrom(a, r, i)| == |a|
    ensures multiset(ShuffleFrom(a, r, i)) == multiset(a)
    decreases i
  {
    if i > 0 {
      var j := Pick(r[i], i);
      SwapPermutes(a, i, j);
      ShufflePermutes(Swap(a, i, j), r, i - 1);
    }
  }

  /** `shuffle(arr)`: permutes `arr` in place and returns the same array. */
  method Shuffle<T>(arr: array<T>, r: seq<real>) returns (res: array<T>)
    requires arr.Length <= |r| && UnitDraws(r)
    modifies arr
    ensures res == arr
    ensures arr[..] == ShuffleFrom(old(arr[..]), r, arr.Length - 1)
    ensures multiset(arr[..]) == multiset(old(arr[..]))
  {
    var i := arr.Length - 1;
    ghost var cur := arr[..];
    ghost var goal := ShuffleFrom(cur, r, i);
    ShufflePermutes(cur, r, i);
    while i > 0
      invariant i < arr.Length && arr[..] == cur
      invariant ShuffleFrom(cur, r, i) == goal
      decreases i
    {
      var j := Pick(r[i], i);
      SwapIn(arr, i, j);
      ShuffleStep(cur, r, i, j);
      cur := Swap(cur, i, j);
      i := i - 1;
    }
    return arr;
  }

  /** `[arr[i], arr[j]] = [arr[j], arr[i]]`. */
  method SwapIn<T>(arr: array<T>, i: nat, j: nat)
    requires i < arr.Length && j < arr.Length
    modifies arr
    ensures arr[..] == Swap(old(arr[..]), i, j)
  {
    arr[i], arr[j] := arr[j], arr[i];
  }

  /** One iteration of the Fisher–Yates loop. */
  lemma ShuffleStep<T>(a: seq<T>, r: seq<real>, i: nat, j: nat)
    requires 0 < i < |a| <= |r| && UnitDraws(r) && j == Pick(r[i], i)
    ensures ShuffleFrom(Swap(a, i, j), r, i - 1) == ShuffleFrom(a, r, i)
  {
  }

  /** `heapsUtil(index)`: returns the snapshots of `arr` it yields and leaves
      `arr` as it found it. */
  method HeapsUtil<T>(arr: array<T>, index: nat) returns (out: seq<seq<T>>)
    requires index <= arr.Length
    modifies arr
    ensures arr[..] == old(arr[..])
    ensures out == HeapsFrom(old(arr[..]), index)
    decreases arr.Length - index
  {
    if index == arr.Length {
      return [arr[..]];
    }
    ghost var a := arr[..];
    out := [];
    var j := index;
    while j < arr.Length
      invariant index <= j <= arr.Length
      invariant arr[..] == a
      invariant out + HeapsLoop(a, index, j) == HeapsLoop(a, index, index)
    {
      SwapIn(arr, index, j);
      var sub := HeapsUtil(arr, index + 1);
      SwapIn(arr, index, j);
      assert arr[..] == a;
      out := out + sub;
      j := j + 1;
    }
  }

  /** `heapsAlg(arr)`: every ordering of `arr` (n! snapshots, pairwise distinct
      when the elements are), with `arr` restored once the generator is done. */
  method HeapsAlg<T>(arr: array<T>) returns (out: seq<seq<T>>)
    modifies arr
    ensures arr[..] == old(arr[..])
    ensures out == HeapsFrom(old(arr[..]), 0)
    ensures |out| == Fact(arr.Length)
    ensures forall b :: b in out ==> multiset(b) == multiset(arr[..])
    ensures (forall x, y :: 0 <= x < y < arr.Length ==> arr[x] != arr[y]) ==>
      forall x, y :: 0 <= x < y < |out| ==> out[x] != out[y]
  {
    out := HeapsUtil(arr, 0);
    HeapsCount(arr[..], 0);
    HeapsPermutes(arr[..], 0);
    if forall x, y :: 0 <= x < y < arr.Length ==> arr[x] != arr[y] {
      HeapsDistinct(arr[..], 0);
    }
  }
}
