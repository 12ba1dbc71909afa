/** The vertices of `modules/Trigraph.mjs` and the searches over them:
    `isSpacelike`, `BronKerbosch` and the `bfs` generator.

    The trigraph keeps operations, states and cliques as objects that point
    at their parents and children; here each vertex sits under its id and
    lists the ids of its parents and children. A vertex is stamped with its
    level when its layer is added, and the ancestor search treats a vertex
    whose level is a multiple of 3 (a clique) as a barrier. */
module TrigraphGraph {
  import opened SeqUtil
  import opened CausalGraph
  import MaximalCliques
  import opened EngineSetup

  /** An operation, a state with its user value and (once its group is
      formed) the handle of its location, or a clique with the numerator
      of its probability. */
  datatype Kind = Operation | State(value: int, location: Option<nat>) | Clique(p: nat)

  /** A vertex: its level, its parents' and children's ids, and its kind. */
  datatype Vertex = Vertex(level: nat, parents: seq<nat>, children: seq<nat>, kind: Kind)

  /** `V`: vertex id to vertex. */
  type Vertices = map<nat, Vertex>

  /** A location: a class of equivalent states, its coordinate, and its
      parent and child locations. Locations have no ids in the source; a
      location is named here by its handle, its position among all the
      locations made so far. */
  datatype Location = Location(states: seq<nat>, coordinate: string, parents: seq<nat>, children: seq<nat>)

  /** Every parent id is below the id of its child. */
  ghost predicate Below(V: Vertices) {
    forall i, k :: i in V && 0 <= k < |V[i].parents| ==> V[i].parents[k] < i
  }

  /** The graph `isSpacelike` walks. A vertex made during the current
      `next` is not stamped with a level until the end of `next` and sits
      here with level 0; stamped levels start at 1. A stamped vertex is a
      barrier when its level is a multiple of 3; an unstamped one never is,
      since `undefined % 3 === 0` is false. */
  function Walked(V: Vertices): (g: Graph)
    ensures g.Keys == V.Keys
    ensures forall i :: i in V ==> g[i] == Node(V[i].parents, V[i].level > 0 && V[i].level % 3 == 0)
  {
    map i | i in V :: Node(V[i].parents, V[i].level > 0 && V[i].level % 3 == 0)
  }

  lemma WalkedBelow(V: Vertices)
    requires Below(V)
    ensures ParentsBelow(Walked(V))
  {
  }

  /** `isSpacelike(v1, v2)`: the two-frontier ancestor search with the
      clique levels as barriers. */
  method IsSpacelike(V: Vertices, a: nat, b: nat) returns (r: bool)
    requires Below(V)
    ensures r == Spacelike(Walked(V), a, b)
    ensures a !in V || b !in V || a == b ==> !r
  {
    WalkedBelow(V);
    r := CausalGraph.IsSpacelike(Walked(V), a, b);
  }

  /** Two states made by one operation are spacelike: their only common
      ancestor before any barrier is the operation itself. */
  lemma SiblingsSpacelike(g: Graph, a: nat, b: nat, o: nat)
    requires ParentsBelow(g) && a in g && b in g && a != b
    requires g[a].parents == [o] && g[b].parents == [o] && o in g && !g[o].clique
    ensures Spacelike(g, a, b)
  {
    assert Parents(g, {a}) == {o};
    assert Parents(g, {b}) == {o};
    assert !HasClique(g, {o});
    assert Search(g, {}, {});
  }

  /** Two states made by different operations of one clique are not
      spacelike: the frontiers first meet at the clique, a barrier. */
  lemma CousinsNotSpacelike(g: Graph, a: nat, b: nat, o1: nat, o2: nat, c: nat)
    requires ParentsBelow(g) && a in g && b in g && o1 in g && o2 in g && o1 != o2
    requires g[a].parents == [o1] && g[b].parents == [o2]
    requires g[o1].parents == [c] && g[o2].parents == [c] && c in g && g[c].clique
    ensures !Spacelike(g, a, b)
  {
    assert Parents(g, {a}) == {o1};
    assert Parents(g, {b}) == {o2};
    assert {o1} * {o2} == {};
    assert !HasClique(g, {});
    assert {o1} - {} == {o1} && {o2} - {} == {o2};
    assert Parents(g, {o1}) == {c};
    assert Parents(g, {o2}) == {c};
    assert HasClique(g, {c} * {c});
    assert !Search(g, {o1}, {o2});
  }

  // ---- BronKerbosch(V) ----

  /** `V.filter(y => x !== y && this.isSpacelike(x, y))`. */
  method SpacelikeRow(g: Graph, U: seq<nat>, x: nat) returns (row: seq<nat>)
    requires ParentsBelow(g)
    ensures forall y :: y in row <==> y in U && Spacelike(g, x, y)
    ensures x !in row
  {
    row := [];
    var j := 0;
    while j < |U|
      invariant 0 <= j <= |U|
      invariant forall y :: y in row <==> y in U[..j] && Spacelike(g, x, y)
    {
      assert U[..j + 1] == U[..j] + [U[j]];
      if x != U[j] {
        var sl := CausalGraph.IsSpacelike(g, x, U[j]);
        if sl {
          row := row + [U[j]];
        }
      }
      j := j + 1;
    }
    assert U[..|U|] == U;
  }

  /** The neighbour map of `BronKerbosch(V)`: for every vertex, the other
      vertices of the group that are spacelike to it. No vertex is its own
      neighbour. */
  method SpacelikeMap(g: Graph, U: seq<nat>) returns (N: map<nat, seq<nat>>)
    requires ParentsBelow(g)
    ensures SpacelikeLists(g, U, N) && forall x :: x in N ==> x in U
    ensures forall x :: x in U ==> x !in N[x]
  {
    N := map[];
    var i := 0;
    while i < |U|
      invariant 0 <= i <= |U|
      invariant forall x :: x in N <==> x in U[..i]
      invariant forall x, y :: x in N && y in U ==> (y in N[x] <==> Spacelike(g, x, y))
    {
      assert U[..i + 1] == U[..i] + [U[i]];
      var row := SpacelikeRow(g, U, U[i]);
      N := N[U[i] := row];
      i := i + 1;
    }
    assert U[..|U|] == U;
  }

  /** `BronKerbosch(V)`: the neighbour map, the sort of the group by
      descending degree (in place: the caller's array is left sorted) and
      the stack enumeration. Every maximal spacelike subset of the group is
      reported exactly once; a non-empty group has at least one clique, and
      none of its cliques is empty. */
  method BronKerbosch(g: Graph, U: seq<nat>) returns (sorted: seq<nat>, r: seq<seq<nat>>)
    requires ParentsBelow(g) && NoDup(U)
    ensures multiset(sorted) == multiset(U) && NoDup(sorted)
    ensures ReportsMaximalSpacelike(g, U, r)
    ensures U != [] ==> r != [] && forall k :: 0 <= k < |r| ==> r[k] != []
  {
    var N := SpacelikeMap(g, U);
    sorted := SortDesc(U, x => if x in N then |N[x]| else 0);
    PermutationElems(U, sorted);
    assert NoDup(sorted) by {
      NoDupCounts(U);
      forall x | x in multiset(sorted) ensures multiset(sorted)[x] <= 1 {
      }
      CountsNoDup(sorted);
    }
    SpacelikeListsAgree(g, U, N);
    r := MaximalCliques.BronKerbosch(sorted, N);
    if U != [] {
      MaximalExists(g, Elems(U));
      NonEmptyCliques(g, U, r);
    }
  }

  /** A sequence in which every element occurs at most once has no
      duplicates. */
  lemma CountsNoDup<T>(s: seq<T>)
    requires forall x :: x in multiset(s) ==> multiset(s)[x] <= 1
    ensures NoDup(s)
  {
    forall i, j | 0 <= i < j < |s| ensures s[i] != s[j] {
      if s[i] == s[j] {
        TwoOccurrences(s, i, j);
      }
    }
  }

  /** Every set of pairwise spacelike vertices of `U` grows into a maximal
      one. */
  lemma {:induction false} MaximalExtends(g: Graph, U: set<nat>, C: set<nat>)
    requires ParentsBelow(g) && C <= U
    requires forall x, y :: x in C && y in C && x != y ==> Spacelike(g, x, y)
    ensures exists D :: C <= D && MaximalSpacelike(g, U, D)
    decreases |U - C|
  {
    if !MaximalSpacelike(g, U, C) {
      var w :| w in U && w !in C && forall c :: c in C ==> Spacelike(g, w, c);
      var D := C + {w};
      forall x, y | x in D && y in D && x != y ensures Spacelike(g, x, y) {
        if y == w {
          SpacelikeSymmetric(g, x, y);
        }
      }
      assert U - D < U - C;
      MaximalExtends(g, U, D);
    }
  }

  /** A non-empty set has a maximal spacelike subset, and no maximal
      spacelike subset of it is empty. */
  lemma MaximalExists(g: Graph, U: set<nat>)
    requires ParentsBelow(g) && U != {}
    ensures exists D :: MaximalSpacelike(g, U, D)
    ensures forall D :: MaximalSpacelike(g, U, D) ==> D != {}
  {
    MaximalExtends(g, U, {});
    forall D | MaximalSpacelike(g, U, D) ensures D != {} {
      var w :| w in U;
      assert w in D || exists c :: c in D && !Spacelike(g, w, c);
    }
  }

  lemma NonEmptyCliques(g: Graph, U: seq<nat>, r: seq<seq<nat>>)
    requires ParentsBelow(g) && U != [] && ReportsMaximalSpacelike(g, U, r)
    requires (exists D :: MaximalSpacelike(g, Elems(U), D)) && forall D :: MaximalSpacelike(g, Elems(U), D) ==> D != {}
    ensures r != [] && forall k :: 0 <= k < |r| ==> r[k] != []
  {
    var D :| MaximalSpacelike(g, Elems(U), D);
    var k :| 0 <= k < |r| && Elems(r[k]) == D;
    forall k | 0 <= k < |r| ensures r[k] != [] {
      assert Elems(r[k]) != {};
    }
  }
}
