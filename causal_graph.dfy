/** The causal graph as an id-indexed arena and the spacelike-independence
    oracle shared by every copy of `isSpacelike` in the system. Each copy keeps
    its own vertex records; it is modelled by projecting them into `Node`s,
    where `clique` is the copy's own way of recognising a causal barrier. */
module CausalGraph {
  import opened SeqUtil
  import MaximalCliques

  /** A vertex as the ancestor search sees it: its parent ids and whether it
      is a clique (a barrier for the search). */
  datatype Node = Node(parents: seq<nat>, clique: bool)

  type Graph = map<nat, Node>

  /** Every parent id is smaller than the id of its child, so walking parents
      always terminates. */
  ghost predicate ParentsBelow(g: Graph) {
    forall i, k :: i in g && 0 <= k < |g[i].parents| ==> g[i].parents[k] < i
  }

  /** `[...new Set(s.map(x => x.parent).flat())]` as a set: the parents of the
      members of `s`. Ids that are not in the arena have no parents. */
  function Parents(g: Graph, s: set<nat>): (r: set<nat>)
    ensures forall x, p :: x in s && x in g && p in g[x].parents ==> p in r
    ensures forall p :: p in r ==> exists x :: x in s && x in g && p in g[x].parents
  {
    set x, p | x in s && x in g && p in g[x].parents :: p
  }

  /** Some member of `s` is a clique of the arena. */
  predicate HasClique(g: Graph, s: set<nat>) {
    exists x :: x in s && x in g && g[x].clique
  }

  /** One more than the largest member (0 for the empty set). */
  ghost function Sup(s: set<nat>): (b: nat)
    ensures forall x :: x in s ==> x < b
    ensures s == {} ==> b == 0
    ensures s != {} ==> b - 1 in s
  {
    if s == {} then 0
    else
      var x :| x in s;
      var rest := Sup(s - {x});
      assert forall y :: y in s ==> y == x || y in s - {x};
      if x + 1 > rest then x + 1 else rest
  }

  /** A set whose members are all below `k` has its supremum at most `k`. */
  lemma SupAtMost(s: set<nat>, k: nat)
    requires forall x :: x in s ==> x < k
    ensures Sup(s) <= k
  {
    if s != {} {
      assert Sup(s) - 1 in s;
    }
  }

  /** Walking one level up lowers the supremum of a non-empty frontier. */
  lemma ParentsLower(g: Graph, s: set<nat>, t: set<nat>)
    requires ParentsBelow(g) && s != {}
    requires t <= Parents(g, s)
    ensures Sup(t) < Sup(s)
  {
    forall p | p in t ensures p < Sup(s) - 1 {
      var x :| x in s && x in g && p in g[x].parents;
      var k :| 0 <= k < |g[x].parents| && g[x].parents[k] == p;
    }
    SupAtMost(t, Sup(s) - 1);
  }

  /** The level-synchronised two-frontier ancestor search: each round both
      frontiers move to their parents, the vertices they now share are taken
      out of both, and a shared clique ends the search with "not spacelike";
      an empty frontier ends it with "spacelike". */
  function Search(g: Graph, s1: set<nat>, s2: set<nat>): bool
    requires ParentsBelow(g)
    decreases Sup(s1)
  {
    if s1 == {} || s2 == {} then true
    else
      var p1 := Parents(g, s1);
      var p2 := Parents(g, s2);
      var shared := p1 * p2;
      if HasClique(g, shared) then false
      else
        ParentsLower(g, s1, p1 - shared);
        Search(g, p1 - shared, p2 - shared)
  }

  /** Two vertices are spacelike separated: both exist, they differ, and the
      ancestor search finds no shared clique before a frontier runs dry. */
  predicate Spacelike(g: Graph, a: nat, b: nat)
    requires ParentsBelow(g)
  {
    a in g && b in g && a != b && Search(g, {a}, {b})
  }

  /** `isSpacelike(v1, v2)`: the while loop over the two frontiers. */
  method IsSpacelike(g: Graph, a: nat, b: nat) returns (r: bool)
    requires ParentsBelow(g)
    ensures r == Spacelike(g, a, b)
    ensures a !in g || b !in g || a == b ==> !r
  {
    if a !in g || b !in g || a == b {
      return false;
    }
    var s1, s2 := {a}, {b};
    while s1 != {} && s2 != {}
      invariant Search(g, s1, s2) == Search(g, {a}, {b})
      decreases Sup(s1)
    {
      var n1 := Parents(g, s1);
      var n2 := Parents(g, s2);
      var shared := n1 * n2;
      if exists x :: x in shared && x in g && g[x].clique {
        return false;
      }
      ParentsLower(g, s1, n1 - shared);
      s1, s2 := n1 - shared, n2 - shared;
    }
    return true;
  }

  /** The search does not depend on which frontier is called the first. */
  lemma {:induction false} SearchSymmetric(g: Graph, s1: set<nat>, s2: set<nat>)
    requires ParentsBelow(g)
    ensures Search(g, s1, s2) == Search(g, s2, s1)
    decreases Sup(s1) + Sup(s2)
  {
    if s1 != {} && s2 != {} {
      var p1, p2 := Parents(g, s1), Parents(g, s2);
      assert p1 * p2 == p2 * p1;
      if !HasClique(g, p1 * p2) {
        ParentsLower(g, s1, p1 - p1 * p2);
        ParentsLower(g, s2, p2 - p1 * p2);
        SearchSymmetric(g, p1 - p1 * p2, p2 - p1 * p2);
      }
    }
  }

  /** Spacelike separation is a symmetric relation. */
  lemma SpacelikeSymmetric(g: Graph, a: nat, b: nat)
    requires ParentsBelow(g)
    ensures Spacelike(g, a, b) == Spacelike(g, b, a)
  {
    SearchSymmetric(g, {a}, {b});
  }

  /** `x` is a proper ancestor of some member of `s`. */
  ghost predicate Reaches(g: Graph, s: set<nat>, x: nat)
    requires ParentsBelow(g)
    decreases Sup(s)
  {
    s != {} &&
    (x in Parents(g, s) || (ParentsLower(g, s, Parents(g, s)); Reaches(g, Parents(g, s), x)))
  }

  /** Ancestry is monotone in the set of descendants. */
  lemma {:induction false} ReachesMonotone(g: Graph, t: set<nat>, s: set<nat>, x: nat)
    requires ParentsBelow(g) && t <= s && Reaches(g, t, x)
    ensures Reaches(g, s, x)
    decreases Sup(t)
  {
    assert Parents(g, t) <= Parents(g, s);
    if x !in Parents(g, t) {
      ParentsLower(g, t, Parents(g, t));
      ReachesMonotone(g, Parents(g, t), Parents(g, s), x);
    }
  }

  /** When the search answers "not spacelike" the two frontiers have a common
      clique ancestor. */
  lemma {:induction false} SearchFailsAtSharedClique(g: Graph, s1: set<nat>, s2: set<nat>)
    requires ParentsBelow(g) && !Search(g, s1, s2)
    ensures exists x :: Reaches(g, s1, x) && Reaches(g, s2, x) && x in g && g[x].clique
    decreases Sup(s1)
  {
    var p1, p2 := Parents(g, s1), Parents(g, s2);
    var shared := p1 * p2;
    if HasClique(g, shared) {
      var x :| x in shared && x in g && g[x].clique;
      assert Reaches(g, s1, x) && Reaches(g, s2, x);
    } else {
      ParentsLower(g, s1, p1 - shared);
      SearchFailsAtSharedClique(g, p1 - shared, p2 - shared);
      var x :| Reaches(g, p1 - shared, x) && Reaches(g, p2 - shared, x) && x in g && g[x].clique;
      ReachesThroughParents(g, s1, p1 - shared, x);
      ReachesThroughParents(g, s2, p2 - shared, x);
    }
  }

  /** An ancestor of some of the parents of `s` is an ancestor of `s`. */
  lemma ReachesThroughParents(g: Graph, s: set<nat>, t: set<nat>, x: nat)
    requires ParentsBelow(g) && s != {} && t <= Parents(g, s) && Reaches(g, t, x)
    ensures Reaches(g, s, x)
  {
    ReachesMonotone(g, t, Parents(g, s), x);
    ParentsLower(g, s, Parents(g, s));
  }

  /** Two distinct vertices without a common clique ancestor are spacelike
      separated: a clique is the only barrier. */
  lemma NoSharedCliqueAncestorIsSpacelike(g: Graph, a: nat, b: nat)
    requires ParentsBelow(g) && a in g && b in g && a != b
    requires forall x :: Reaches(g, {a}, x) && Reaches(g, {b}, x) ==> !(x in g && g[x].clique)
    ensures Spacelike(g, a, b)
  {
    if !Search(g, {a}, {b}) {
      SearchFailsAtSharedClique(g, {a}, {b});
    }
  }

  // ---- the spacelike relation as neighbour lists, and its maximal cliques ----

  /** `N` lists, for every vertex of `U`, exactly the members of `U` that
      are spacelike to it. */
  ghost predicate SpacelikeLists(g: Graph, U: seq<nat>, N: map<nat, seq<nat>>)
    requires ParentsBelow(g)
  {
    (forall x :: x in U ==> x in N) &&
    (forall x, y :: x in U && y in U ==> (y in N[x] <==> Spacelike(g, x, y)))
  }

  /** Pairs `(p, q)` of positions whose test the nested loop has already run
      when it is about to test `(i, j)`. */
  predicate PairDone(p: nat, q: nat, i: nat, j: nat) {
    var lo := if p < q then p else q;
    var hi := if p < q then q else p;
    lo < i || (lo == i && hi < j)
  }

  /** The neighbour invariant over positions of `U`. */
  ghost predicate NeighboursSoFar(g: Graph, U: seq<nat>, N: map<nat, seq<nat>>, i: nat, j: nat)
    requires ParentsBelow(g)
  {
    (forall x :: x in U ==> x in N) &&
    (forall p, q :: 0 <= p < |U| && 0 <= q < |U| ==> PairListed(g, U, N, p, q, i, j))
  }

  /** The list of `U[p]` holds `U[q]` exactly when the pair has been compared
      and found spacelike. */
  ghost predicate PairListed(g: Graph, U: seq<nat>, N: map<nat, seq<nat>>, p: nat, q: nat, i: nat, j: nat)
    requires ParentsBelow(g) && p < |U| && q < |U|
  {
    U[p] in N && (U[q] in N[U[p]] <==> PairDone(p, q, i, j) && Spacelike(g, U[p], U[q]))
  }

  /** The construction that `BronKerbosch` starts with in `lib/wwmodel.js`
      and `server/clique.mjs`: every pair `i < j` is compared once and, when
      spacelike, recorded in both lists. */
  method Neighbours(g: Graph, U: seq<nat>) returns (N: map<nat, seq<nat>>)
    requires ParentsBelow(g) && NoDup(U)
    ensures SpacelikeLists(g, U, N)
    ensures forall x :: x in N ==> x in U
  {
    N := map x | x in U :: [];
    var i := 0;
    while i + 1 < |U|
      invariant 0 <= i <= |U| && (|U| > 0 ==> i < |U|)
      invariant NeighboursSoFar(g, U, N, i, i + 1)
      invariant KeysIn(N, U)
    {
      N := NeighbourRow(g, U, N, i);
      i := i + 1;
    }
    NeighboursDone(g, U, N, i);
  }

  /** Every key of `N` is a vertex of `U`. */
  predicate KeysIn(N: map<nat, seq<nat>>, U: seq<nat>) {
    forall x :: x in N ==> x in U
  }

  /** The inner loop: test `U[i]` against every later vertex. */
  method NeighbourRow(g: Graph, U: seq<nat>, N0: map<nat, seq<nat>>, i: nat) returns (N: map<nat, seq<nat>>)
    requires ParentsBelow(g) && NoDup(U) && i + 1 < |U|
    requires NeighboursSoFar(g, U, N0, i, i + 1) && KeysIn(N0, U)
    ensures NeighboursSoFar(g, U, N, i + 1, i + 2) && KeysIn(N, U)
  {
    N := N0;
    var j := i + 1;
    while j < |U|
      invariant i < j <= |U|
      invariant NeighboursSoFar(g, U, N, i, j) && KeysIn(N, U)
    {
      var sl := IsSpacelike(g, U[i], U[j]);
      if sl {
        NeighbourStep(g, U, N, i, j);
        N := AddPair(N, U[i], U[j]);
      } else {
        NeighbourSkip(g, U, N, i, j);
      }
      j := j + 1;
    }
    NeighbourRowDone(g, U, N, i);
  }

  lemma NeighbourStep(g: Graph, U: seq<nat>, N: map<nat, seq<nat>>, i: nat, j: nat)
    requires ParentsBelow(g) && NoDup(U) && i < j < |U|
    requires NeighboursSoFar(g, U, N, i, j) && KeysIn(N, U) && Spacelike(g, U[i], U[j])
    ensures NeighboursSoFar(g, U, AddPair(N, U[i], U[j]), i, j + 1)
    ensures KeysIn(AddPair(N, U[i], U[j]), U)
  {
    SpacelikeSymmetric(g, U[i], U[j]);
    var N2, j' := AddPair(N, U[i], U[j]), j + 1;
    forall p: nat, q: nat | p < |U| && q < |U|
      ensures PairListed(g, U, N2, p, q, i, j')
    {
      PairStep(g, U, N, i, j, p, q);
    }
  }

  /** Recording the spacelike pair `(i, j)` keeps one entry of the invariant. */
  lemma PairStep(g: Graph, U: seq<nat>, N: map<nat, seq<nat>>, i: nat, j: nat, p: nat, q: nat)
    requires ParentsBelow(g) && NoDup(U) && i < j < |U| && p < |U| && q < |U|
    requires U[i] in N && U[j] in N && PairListed(g, U, N, p, q, i, j)
    requires Spacelike(g, U[i], U[j]) && Spacelike(g, U[j], U[i])
    ensures PairListed(g, U, AddPair(N, U[i], U[j]), p, q, i, j + 1)
  {
    var N2 := AddPair(N, U[i], U[j]);
    assert U[p] == U[i] <==> p == i;
    assert U[p] == U[j] <==> p == j;
    assert U[q] == U[i] <==> q == i;
    assert U[q] == U[j] <==> q == j;
    if p == i {
      assert N2[U[p]] == N[U[p]] + [U[j]];
    } else if p == j {
      assert N2[U[p]] == N[U[p]] + [U[i]];
    } else {
      assert N2[U[p]] == N[U[p]];
    }
  }

  lemma NeighbourSkip(g: Graph, U: seq<nat>, N: map<nat, seq<nat>>, i: nat, j: nat)
    requires ParentsBelow(g) && NoDup(U) && i < j < |U|
    requires NeighboursSoFar(g, U, N, i, j) && !Spacelike(g, U[i], U[j])
    ensures NeighboursSoFar(g, U, N, i, j + 1)
  {
    SpacelikeSymmetric(g, U[i], U[j]);
    var j' := j + 1;
    forall p: nat, q: nat | p < |U| && q < |U|
      ensures PairListed(g, U, N, p, q, i, j')
    {
      assert PairListed(g, U, N, p, q, i, j);
    }
  }

  lemma NeighbourRowDone(g: Graph, U: seq<nat>, N: map<nat, seq<nat>>, i: nat)
    requires ParentsBelow(g) && i < |U|
    requires NeighboursSoFar(g, U, N, i, |U|)
    ensures NeighboursSoFar(g, U, N, i + 1, i + 2)
  {
    var i1, i2 := i + 1, i + 2;
    forall p: nat, q: nat | p < |U| && q < |U|
      ensures PairListed(g, U, N, p, q, i1, i2)
    {
      assert PairListed(g, U, N, p, q, i, |U|);
      assert PairDone(p, q, i, |U|) || p == q <==> PairDone(p, q, i + 1, i + 2) || p == q;
    }
  }

  lemma NeighboursDone(g: Graph, U: seq<nat>, N: map<nat, seq<nat>>, i: nat)
    requires ParentsBelow(g) && 0 <= i <= |U| && (|U| > 0 ==> i < |U|) && i + 1 >= |U|
    requires NeighboursSoFar(g, U, N, i, i + 1)
    ensures SpacelikeLists(g, U, N)
  {
    forall x, y | x in U && y in U ensures y in N[x] <==> Spacelike(g, x, y) {
      var p :| 0 <= p < |U| && U[p] == x;
      var q :| 0 <= q < |U| && U[q] == y;
      assert PairListed(g, U, N, p, q, i, i + 1);
      assert p == q || PairDone(p, q, i, i + 1);
    }
  }

  /** Members of `C` are pairwise spacelike and no other member of `U` is
      spacelike to all of them. */
  ghost predicate MaximalSpacelike(g: Graph, U: set<nat>, C: set<nat>)
    requires ParentsBelow(g)
  {
    C <= U &&
    (forall x, y :: x in C && y in C && x != y ==> Spacelike(g, x, y)) &&
    (forall w :: w in U && w !in C ==> exists c :: c in C && !Spacelike(g, w, c))
  }

  /** The neighbour lists make a relation the clique enumerator accepts, and
      its maximal cliques are the maximal spacelike sets. */
  lemma SpacelikeListsAgree(g: Graph, U: seq<nat>, N: map<nat, seq<nat>>)
    requires ParentsBelow(g) && SpacelikeLists(g, U, N)
    ensures MaximalCliques.WellFormed(Elems(U), N)
    ensures forall C :: MaximalCliques.IsMaximalClique(Elems(U), N, C) <==> MaximalSpacelike(g, Elems(U), C)
  {
    forall x, y | x in Elems(U) && y in Elems(U) && MaximalCliques.Adj(N, x, y)
      ensures MaximalCliques.Adj(N, y, x)
    {
      SpacelikeSymmetric(g, x, y);
    }
    forall C ensures MaximalCliques.IsMaximalClique(Elems(U), N, C) <==> MaximalSpacelike(g, Elems(U), C) {
      if C <= Elems(U) {
        forall w | w in Elems(U) && w !in C
          ensures MaximalCliques.AdjToAll(N, C, w) <==> forall c :: c in C ==> Spacelike(g, w, c)
        {
        }
      }
    }
  }

  /** `r` lists every maximal spacelike subset of `U` exactly once, each as
      a duplicate-free sequence. */
  ghost predicate ReportsMaximalSpacelike(g: Graph, U: seq<nat>, r: seq<seq<nat>>)
    requires ParentsBelow(g)
  {
    (forall k :: 0 <= k < |r| ==> NoDup(r[k]) && MaximalSpacelike(g, Elems(U), Elems(r[k]))) &&
    (forall C :: MaximalSpacelike(g, Elems(U), C) ==> exists k :: 0 <= k < |r| && Elems(r[k]) == C) &&
    (forall k, k' :: 0 <= k < k' < |r| ==> Elems(r[k]) != Elems(r[k']))
  }

  /** Sort by descending degree and enumerate: the maximal cliques of the
      spacelike relation on `U`, each exactly once. */
  method SpacelikeCliques(g: Graph, U: seq<nat>, N: map<nat, seq<nat>>) returns (r: seq<seq<nat>>)
    requires ParentsBelow(g) && NoDup(U) && SpacelikeLists(g, U, N)
    ensures ReportsMaximalSpacelike(g, U, r)
    ensures U == [] ==> r == [[]]
  {
    var sorted := SortDesc(U, x => if x in N then |N[x]| else 0);
    PermutationElems(U, sorted);
    SpacelikeListsAgree(g, U, N);
    r := MaximalCliques.BronKerbosch(sorted, N);
    assert U == [] ==> sorted == [] by {
      assert |multiset(sorted)| == |multiset(U)|;
    }
  }

  /** `BronKerbosch(U)` of `lib/wwmodel.js` and `BronKerbosch2(U)` of
      `server/clique.mjs`: pairwise neighbour lists, then the sorted stack
      enumeration. */
  method SpacelikeBronKerbosch(g: Graph, U: seq<nat>) returns (r: seq<seq<nat>>)
    requires ParentsBelow(g) && NoDup(U)
    ensures ReportsMaximalSpacelike(g, U, r)
    ensures U == [] ==> r == [[]]
  {
    var N := Neighbours(g, U);
    r := SpacelikeCliques(g, U, N);
  }
}
