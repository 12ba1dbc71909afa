/** Sequence helpers that mirror the JavaScript array idioms the engine uses:
    `filter` with `includes`, `splice(indexOf(v), 1)`, `[...new Set([...a, v])]`
    and a stable `sort` by a numeric key. */
module SeqUtil {

  /** The set of elements of a sequence. */
  function Elems<T>(s: seq<T>): (r: set<T>)
    ensures forall x :: x in r ==> x in s
    ensures forall x :: x in s ==> x in r
  {
    set x | x in s
  }

  /** The elements of a concatenation. */
  lemma ElemsAppend<T>(a: seq<T>, b: seq<T>)
    ensures Elems(a + b) == Elems(a) + Elems(b)
  {
  }

  /** No element occurs twice. */
  predicate NoDup<T(==)>(s: seq<T>) {
    forall i, j :: 0 <= i < j < |s| ==> s[i] != s[j]
  }

  /** Two sequences without duplicates and without common elements
      concatenate to one without duplicates. */
  lemma NoDupAppend<T>(s: seq<T>, t: seq<T>)
    requires NoDup(s) && NoDup(t) && forall x :: x in s ==> x !in t
    ensures NoDup(s + t)
  {
    forall i, j | 0 <= i < j < |s + t| ensures (s + t)[i] != (s + t)[j] {
      if i < |s| && j >= |s| {
        assert (s + t)[i] in s && (s + t)[j] in t;
      }
    }
  }

  /** `s.filter(x => t.includes(x))`. */
  function Keep<T(==)>(s: seq<T>, t: seq<T>): (r: seq<T>)
    ensures forall x :: x in r ==> x in s && x in t
    ensures forall x :: x in s && x in t ==> x in r
    ensures |r| <= |s|
    ensures NoDup(s) ==> NoDup(r)
  {
    if s == [] then []
    else (if s[0] in t then [s[0]] else []) + Keep(s[1..], t)
  }

  /** `s.filter(x => !t.includes(x))`. */
  function Without<T(==)>(s: seq<T>, t: seq<T>): (r: seq<T>)
    ensures forall x :: x in r ==> x in s && x !in t
    ensures forall x :: x in s && x !in t ==> x in r
    ensures |r| <= |s|
    ensures NoDup(s) ==> NoDup(r)
  {
    if s == [] then []
    else (if s[0] !in t then [s[0]] else []) + Without(s[1..], t)
  }

  /** Keeping and dropping split a sequence. */
  lemma {:induction false} KeepWithoutLength<T>(s: seq<T>, t: seq<T>)
    ensures |Keep(s, t)| + |Without(s, t)| == |s|
  {
    if s != [] {
      KeepWithoutLength(s[1..], t);
    }
  }

  /** `s.splice(s.indexOf(v), 1)` for a `v` that occurs in `s`. */
  function RemoveFirst<T(==)>(s: seq<T>, v: T): (r: seq<T>)
    requires v in s
    ensures |r| == |s| - 1
    ensures forall x :: x in r ==> x in s
    ensures forall x :: x in s && x != v ==> x in r
    ensures NoDup(s) ==> NoDup(r) && v !in r
  {
    if s[0] == v then
      assert NoDup(s) ==> s[0] !in s[1..];
      s[1..]
    else
      var rest := RemoveFirst(s[1..], v);
      assert NoDup(s) ==> NoDup(s[1..]) && s[0] !in rest;
      [s[0]] + rest
  }

  /** `[...new Set([...s, v])]`: append `v` unless it is already there. */
  function AddUnique<T(==)>(s: seq<T>, v: T): (r: seq<T>)
    ensures Elems(r) == Elems(s) + {v}
    ensures NoDup(s) ==> NoDup(r)
    ensures v !in s ==> r == s + [v]
  {
    if v in s then s else s + [v]
  }

  /** `N[a].push(b); N[b].push(a)`: record a pair of neighbours in both
      lists. */
  function AddPair<T(==)>(N: map<T, seq<T>>, a: T, b: T): (r: map<T, seq<T>>)
    requires a in N && b in N
    ensures r.Keys == N.Keys
  {
    var N1 := N[a := N[a] + [b]];
    N1[b := N1[b] + [a]]
  }

  /** Sorted by a key, largest first. */
  predicate SortedDesc<T>(s: seq<T>, key: T -> int) {
    forall i, j :: 0 <= i < j < |s| ==> key(s[i]) >= key(s[j])
  }

  /** Insert `x` before the first element whose key is not larger than its own. */
  function InsertDesc<T>(x: T, s: seq<T>, key: T -> int): (r: seq<T>)
    requires SortedDesc(s, key)
    ensures SortedDesc(r, key)
    ensures multiset(r) == multiset(s) + multiset{x}
  {
    if s == [] then [x]
    else if key(s[0]) <= key(x) then [x] + s
    else
      var rest := InsertDesc(x, s[1..], key);
      InsertDescStep(x, s, rest, key);
      [s[0]] + rest
  }

  lemma InsertDescStep<T>(x: T, s: seq<T>, rest: seq<T>, key: T -> int)
    requires s != [] && key(s[0]) > key(x) && SortedDesc(s, key)
    requires SortedDesc(rest, key) && multiset(rest) == multiset(s[1..]) + multiset{x}
    ensures SortedDesc([s[0]] + rest, key)
    ensures multiset([s[0]] + rest) == multiset(s) + multiset{x}
  {
    assert s == [s[0]] + s[1..];
    forall j | 0 <= j < |rest| ensures key(s[0]) >= key(rest[j]) {
      assert rest[j] in multiset(rest);
      if rest[j] != x {
        assert rest[j] in multiset(s[1..]);
        var k :| 0 <= k < |s[1..]| && s[1..][k] == rest[j];
        assert s[k + 1] == rest[j];
      }
    }
    var r := [s[0]] + rest;
    forall i, j | 0 <= i < j < |r| ensures key(r[i]) >= key(r[j]) {
      if i > 0 {
        assert r[i] == rest[i - 1] && r[j] == rest[j - 1];
      } else {
        assert r[j] == rest[j - 1];
      }
    }
  }

  /** The stable sort `s.sort((a, b) => key(b) - key(a))`: largest key first,
      equal keys in their original order (`SortDescStable`). */
  function SortDesc<T>(s: seq<T>, key: T -> int): (r: seq<T>)
    ensures SortedDesc(r, key)
    ensures multiset(r) == multiset(s)
    ensures |r| == |s|
  {
    if s == [] then []
    else
      assert s == [s[0]] + s[1..];
      InsertDesc(s[0], SortDesc(s[1..], key), key)
  }

  /** The entries of `s` whose key is `k`, in their order in `s`. */
  function KeyFilter<T>(s: seq<T>, key: T -> int, k: int): (r: seq<T>)
    ensures |r| <= |s|
    ensures forall i {:trigger r[i]} :: 0 <= i < |r| ==> key(r[i]) == k && r[i] in s
  {
    if s == [] then []
    else (if key(s[0]) == k then [s[0]] else []) + KeyFilter(s[1..], key, k)
  }

  /** Inserting `x` puts it before every entry of its key, and leaves the
      order of the entries of every other key as it was. */
  lemma {:induction false} InsertKeep<T>(x: T, s: seq<T>, key: T -> int, k: int)
    requires SortedDesc(s, key)
    ensures KeyFilter(InsertDesc(x, s, key), key, k) ==
            (if key(x) == k then [x] else []) + KeyFilter(s, key, k)
  {
    var r := InsertDesc(x, s, key);
    var xh: seq<T> := if key(x) == k then [x] else [];
    if s == [] {
      assert r == [x] && r[1..] == [];
      assert KeyFilter(r, key, k) == xh + KeyFilter([], key, k);
    } else if key(s[0]) <= key(x) {
      assert r == [x] + s && r[1..] == s;
      assert KeyFilter(r, key, k) == xh + KeyFilter(s, key, k);
    } else {
      var rest := InsertDesc(x, s[1..], key);
      InsertKeep(x, s[1..], key, k);
      assert r == [s[0]] + rest && r[1..] == rest;
      var head: seq<T> := if key(s[0]) == k then [s[0]] else [];
      assert KeyFilter(r, key, k) == head + KeyFilter(rest, key, k);
      assert KeyFilter(s, key, k) == head + KeyFilter(s[1..], key, k);
      if key(x) == k {
        assert head == [];
        assert KeyFilter(r, key, k) == KeyFilter(rest, key, k);
        assert KeyFilter(s, key, k) == KeyFilter(s[1..], key, k);
      } else {
        assert xh == [];
        assert KeyFilter(rest, key, k) == KeyFilter(s[1..], key, k);
      }
    }
  }

  /** The sort is stable: for every key, the entries with that key come out
      in the order they came in. */
  lemma {:induction false} SortDescStable<T>(s: seq<T>, key: T -> int, k: int)
    ensures KeyFilter(SortDesc(s, key), key, k) == KeyFilter(s, key, k)
  {
    if s != [] {
      SortDescStable(s[1..], key, k);
      InsertKeep(s[0], SortDesc(s[1..], key), key, k);
    }
  }

  /** The entries of a key in a prefix are a prefix of the entries of that key. */
  lemma {:induction false} KeyFilterPrefix<T>(s: seq<T>, n: nat, key: T -> int, k: int)
    requires n <= |s|
    ensures KeyFilter(s[..n], key, k) <= KeyFilter(s, key, k)
  {
    if n > 0 {
      KeyFilterPrefix(s[1..], n - 1, key, k);
      assert s[..n][0] == s[0] && s[..n][1..] == s[1..][..n - 1];
    }
  }

  /** A permutation keeps the set of elements and the absence of duplicates. */
  lemma PermutationElems<T>(a: seq<T>, b: seq<T>)
    requires multiset(a) == multiset(b)
    ensures Elems(a) == Elems(b)
    ensures NoDup(a) ==> NoDup(b)
  {
    forall x ensures x in a <==> x in b {
      assert x in a <==> x in multiset(a);
      assert x in b <==> x in multiset(b);
    }
    if NoDup(a) {
      NoDupCounts(a);
      forall i, j | 0 <= i < j < |b| ensures b[i] != b[j] {
        if b[i] == b[j] {
          TwoOccurrences(b, i, j);
        }
      }
    }
  }

  /** Without duplicates, every element occurs once. */
  lemma {:induction false} NoDupCounts<T>(s: seq<T>)
    requires NoDup(s)
    ensures forall x :: multiset(s)[x] <= 1
  {
    if s != [] {
      assert s == [s[0]] + s[1..];
      NoDupCounts(s[1..]);
      assert s[0] !in s[1..];
      assert multiset(s[1..])[s[0]] == 0;
    }
  }

  /** Two equal entries make an element occur twice. */
  lemma {:induction false} TwoOccurrences<T>(s: seq<T>, i: nat, j: nat)
    requires i < j < |s| && s[i] == s[j]
    ensures multiset(s)[s[i]] >= 2
  {
    if i > 0 {
      assert s == [s[0]] + s[1..];
      TwoOccurrences(s[1..], i - 1, j - 1);
    } else {
      assert s == [s[0]] + s[1..];
      assert s[j] == s[1..][j - 1];
      assert s[j] in multiset(s[1..]);
    }
  }

  /** Concatenation is associative. */
  lemma AppendAssoc<T>(a: seq<T>, b: seq<T>, c: seq<T>)
    ensures (a + b) + c == a + (b + c)
  {
  }

  /** The sum of a sequence of naturals. */
  function Sum(s: seq<nat>): nat {
    if s == [] then 0 else s[0] + Sum(s[1..])
  }

  /** The ids `start..end`, both ends included (empty when `end < start`). */
  function IdRange(start: nat, end: int): (r: set<nat>)
    ensures forall i :: i in r <==> start <= i <= end
    decreases end - start
  {
    if end < start then {} else IdRange(start, end - 1) + {end}
  }

  /** There are `end - start + 1` of them. */
  lemma {:induction false} IdRangeCard(a: nat, b: int)
    ensures b < a ==> |IdRange(a, b)| == 0
    ensures a <= b ==> |IdRange(a, b)| == b - a + 1
    decreases b - a
  {
    if a <= b {
      var A := IdRange(a, b - 1);
      IdRangeCard(a, b - 1);
      assert IdRange(a, b) == A + {b};
      CardAddOne(A, b);
    }
  }

  /** Adding a new element adds one to the size. */
  lemma CardAddOne(A: set<nat>, x: nat)
    requires x !in A
    ensures |A + {x}| == |A| + 1
  {
  }

  /** `[].concat(...xss)`: the lists one after another. */
  function Concat<T>(xss: seq<seq<T>>): seq<T>
    decreases |xss|
  {
    if xss == [] then [] else Concat(xss[..|xss| - 1]) + xss[|xss| - 1]
  }

  /** An element of the concatenation comes from one of the lists, and the
      other way round. */
  lemma {:induction false} ConcatElems<T>(xss: seq<seq<T>>, x: T)
    ensures x in Concat(xss) <==> exists i :: 0 <= i < |xss| && x in xss[i]
    decreases |xss|
  {
    if xss != [] {
      var n := |xss|;
      var pre := xss[..n - 1];
      ConcatElems(pre, x);
      assert Concat(xss) == Concat(pre) + xss[n - 1];
      if exists i :: 0 <= i < n - 1 && x in pre[i] {
        var i :| 0 <= i < n - 1 && x in pre[i];
        assert x in xss[i];
      }
      if exists i :: 0 <= i < n && x in xss[i] {
        var i :| 0 <= i < n && x in xss[i];
        if i < n - 1 {
          assert x in pre[i];
        }
      }
    }
  }

  /** `[...new Set(xs)]`: the elements in the order they first occur. */
  function Dedup<T(==)>(xs: seq<T>): (r: seq<T>)
    decreases |xs|
  {
    if xs == [] then [] else AddUnique(Dedup(xs[..|xs| - 1]), xs[|xs| - 1])
  }

  /** Deduplicating keeps the elements and leaves no duplicates. */
  lemma {:induction false} DedupFacts<T>(xs: seq<T>)
    ensures Elems(Dedup(xs)) == Elems(xs) && NoDup(Dedup(xs))
    decreases |xs|
  {
    if xs != [] {
      var n := |xs|;
      DedupFacts(xs[..n - 1]);
      assert xs == xs[..n - 1] + [xs[n - 1]];
      assert Elems(xs) == Elems(xs[..n - 1]) + {xs[n - 1]};
    }
  }

  /** Without duplicates, the length of a sequence is the number of its
      elements. */
  lemma {:induction false} NoDupCard<T>(s: seq<T>)
    requires NoDup(s)
    ensures |Elems(s)| == |s|
  {
    if s != [] {
      var t := s[1..];
      assert NoDup(t);
      NoDupCard(t);
      assert s == [s[0]] + t;
      assert Elems(s) == {s[0]} + Elems(t);
      assert s[0] !in Elems(t);
    }
  }

  /** A deduplicated list is as long as its number of distinct elements. */
  lemma DedupLength<T>(xs: seq<T>)
    ensures |Dedup(xs)| == |Elems(xs)|
  {
    DedupFacts(xs);
    NoDupCard(Dedup(xs));
  }

  /** Sorting by two keys that agree on every element gives the same list. */
  lemma {:induction false} SortDescAgree<T>(s: seq<T>, k1: T -> int, k2: T -> int)
    requires forall x :: x in s ==> k1(x) == k2(x)
    ensures SortDesc(s, k1) == SortDesc(s, k2)
    decreases |s|
  {
    if s != [] {
      var t := s[1..];
      assert forall x :: x in t ==> x in s;
      SortDescAgree(t, k1, k2);
      var u := SortDesc(t, k1);
      forall y | y in u ensures k1(y) == k2(y) {
        assert y in multiset(u);
        assert y in multiset(t);
      }
      InsertDescAgree(s[0], u, k1, k2);
    }
  }

  lemma {:induction false} InsertDescAgree<T>(x: T, u: seq<T>, k1: T -> int, k2: T -> int)
    requires SortedDesc(u, k1) && SortedDesc(u, k2)
    requires k1(x) == k2(x) && forall y :: y in u ==> k1(y) == k2(y)
    ensures InsertDesc(x, u, k1) == InsertDesc(x, u, k2)
    decreases |u|
  {
    if u != [] && k1(u[0]) > k1(x) {
      assert forall y :: y in u[1..] ==> y in u;
      InsertDescAgree(x, u[1..], k1, k2);
    }
  }
}
