/** The generations of the `bfs` generator of `modules/Trigraph.mjs`,
    defined on sets: generation `k` is the set of vertices whose shortest
    walk from the roots has `k` links. */
module TrigraphRings {
  import opened SeqUtil
  import opened TrigraphGraph

  /** The ids `x` links to on the side the search walks: its parents when
      walking backwards, its children otherwise. */
  function Links(g: Vertices, x: nat, reverse: bool): seq<nat> {
    if x !in g then [] else if reverse then g[x].parents else g[x].children
  }

  /** `l` after `for (const x of s) l.push(...links of x)`. */
  function Listed(g: Vertices, s: seq<nat>, reverse: bool): seq<nat>
    decreases |s|
  {
    if s == [] then [] else Listed(g, s[..|s| - 1], reverse) + Links(g, s[|s| - 1], reverse)
  }

  /** The vertices one link away from some member of `s`. */
  ghost function Around(g: Vertices, s: set<nat>, reverse: bool): set<nat> {
    set x, y | x in s && y in Links(g, x, reverse) :: y
  }

  /** Every id some vertex links to. */
  ghost function Linked(g: Vertices): set<nat> {
    (set x, y | x in g && y in g[x].parents :: y) + (set x, y | x in g && y in g[x].children :: y)
  }

  /** The vertices at most `k` links away from the roots. */
  ghost function Within(g: Vertices, roots: set<nat>, reverse: bool, k: nat): set<nat> {
    if k == 0 then roots
    else Within(g, roots, reverse, k - 1) + Around(g, Within(g, roots, reverse, k - 1), reverse)
  }

  /** Generation `k`: the vertices whose shortest walk from the roots has
      exactly `k` links. */
  ghost function Ring(g: Vertices, roots: set<nat>, reverse: bool, k: nat): set<nat> {
    if k == 0 then roots else Within(g, roots, reverse, k) - Within(g, roots, reverse, k - 1)
  }

  lemma {:induction false} ListedElems(g: Vertices, s: seq<nat>, reverse: bool)
    ensures Elems(Listed(g, s, reverse)) == Around(g, Elems(s), reverse)
    decreases |s|
  {
    if s != [] {
      var n := |s|;
      ListedElems(g, s[..n - 1], reverse);
      assert Elems(s) == Elems(s[..n - 1]) + {s[n - 1]} by {
        assert s == s[..n - 1] + [s[n - 1]];
      }
    }
  }

  /** The search never leaves the roots and the ids the vertices link to. */
  lemma AroundLinked(g: Vertices, s: set<nat>, reverse: bool)
    ensures Around(g, s, reverse) <= Linked(g)
  {
  }

  lemma {:induction false} WithinGrows(g: Vertices, roots: set<nat>, reverse: bool, i: nat, j: nat)
    requires i <= j
    ensures Within(g, roots, reverse, i) <= Within(g, roots, reverse, j)
    decreases j
  {
    if i < j {
      WithinGrows(g, roots, reverse, i, j - 1);
    }
  }

  /** The vertices within `k` links are those within `k - 1` and
      generation `k`. */
  lemma RingWithin(g: Vertices, roots: set<nat>, reverse: bool, k: nat)
    ensures Within(g, roots, reverse, k) == (if k == 0 then {} else Within(g, roots, reverse, k - 1)) + Ring(g, roots, reverse, k)
  {
    if k > 0 {
      WithinGrows(g, roots, reverse, k - 1, k);
    }
  }

  /** The next generation is what the current one links to, less every
      vertex already visited. */
  lemma RingNext(g: Vertices, roots: set<nat>, reverse: bool, k: nat)
    ensures Ring(g, roots, reverse, k + 1) == Around(g, Ring(g, roots, reverse, k), reverse) - Within(g, roots, reverse, k)
  {
    RingWithin(g, roots, reverse, k);
    if k > 0 {
      var W0, W1 := Within(g, roots, reverse, k - 1), Within(g, roots, reverse, k);
      var R := Ring(g, roots, reverse, k);
      assert W1 == W0 + R;
      assert Around(g, W1, reverse) == Around(g, W0, reverse) + Around(g, R, reverse);
      assert Around(g, W0, reverse) <= W1;
    }
  }

  /** Once a generation is empty, every later one is. */
  lemma {:induction false} RingEmptyStays(g: Vertices, roots: set<nat>, reverse: bool, k: nat, m: nat)
    requires k <= m && Ring(g, roots, reverse, k) == {}
    ensures Ring(g, roots, reverse, m) == {}
    decreases m - k
  {
    if k < m {
      RingNext(g, roots, reverse, k);
      assert Around(g, {}, reverse) == {};
      RingEmptyStays(g, roots, reverse, k + 1, m);
    }
  }

  /** Different generations share no vertex. */
  lemma RingsDisjoint(g: Vertices, roots: set<nat>, reverse: bool, i: nat, j: nat)
    requires i < j
    ensures Ring(g, roots, reverse, i) !! Ring(g, roots, reverse, j)
  {
    WithinGrows(g, roots, reverse, i, j - 1);
    RingWithin(g, roots, reverse, i);
  }

  /** One round of the generator: the visited list grows by the current
      generation, and what the generation links to, less the visited
      vertices, is the next one. */
  lemma BfsRound(g: Vertices, R: set<nat>, reverse: bool, k: nat, k': nat, u: seq<nat>, s: seq<nat>, W: set<nat>)
    requires W == R + Linked(g) && s != [] && Frontier(g, R, reverse, W, k, u, s) && k' == k + 1
    ensures Frontier(g, R, reverse, W, k', Dedup(u + s), Without(Dedup(Listed(g, s, reverse)), Dedup(u + s)))
    ensures |W - Elems(Dedup(u + s))| < |W - Elems(u)|
  {
    RoundVisited(g, R, reverse, k, u, s, W);
    RoundNext(g, R, reverse, k, u, s, W);
    FrontierStep(g, R, reverse, W, k, k', Dedup(u + s), Without(Dedup(Listed(g, s, reverse)), Dedup(u + s)));
  }

  /** The visited list grows by the current generation. */
  lemma RoundVisited(g: Vertices, R: set<nat>, reverse: bool, k: nat, u: seq<nat>, s: seq<nat>, W: set<nat>)
    requires W == R + Linked(g) && s != [] && Frontier(g, R, reverse, W, k, u, s)
    ensures Elems(Dedup(u + s)) == Within(g, R, reverse, k) && Elems(Dedup(u + s)) <= W
    ensures |W - Elems(Dedup(u + s))| < |W - Elems(u)|
  {
    assert Elems(Dedup(u + s)) == Elems(u) + Elems(s) by {
      DedupFacts(u + s);
      ElemsAppend(u, s);
    }
    assert s[0] in Elems(s);
    VisitedGrows(g, R, reverse, k, Elems(u), Elems(s), Elems(Dedup(u + s)), W);
  }

  lemma VisitedGrows(g: Vertices, R: set<nat>, reverse: bool, k: nat, U: set<nat>, S: set<nat>, V: set<nat>, W: set<nat>)
    requires U == (if k == 0 then {} else Within(g, R, reverse, k - 1)) && S == Ring(g, R, reverse, k)
    requires U <= W && S <= W && S != {} && V == U + S
    ensures V == Within(g, R, reverse, k) && V <= W && |W - V| < |W - U|
  {
    RingWithin(g, R, reverse, k);
    var x :| x in S;
    DiffShrinks(W, U, V, x);
  }

  /** What the current generation links to, less the visited vertices, is
      the next generation. */
  lemma RoundNext(g: Vertices, R: set<nat>, reverse: bool, k: nat, u: seq<nat>, s: seq<nat>, W: set<nat>)
    requires W == R + Linked(g) && s != [] && Frontier(g, R, reverse, W, k, u, s)
    ensures var s' := Without(Dedup(Listed(g, s, reverse)), Dedup(u + s));
      Elems(s') == Ring(g, R, reverse, k + 1) && NoDup(s') && Elems(s') <= W
  {
    RoundVisited(g, R, reverse, k, u, s, W);
    RingNext(g, R, reverse, k);
    NextGeneration(g, R, reverse, k, s, Dedup(u + s), W);
  }

  lemma FrontierStep(g: Vertices, R: set<nat>, reverse: bool, W: set<nat>, k: nat, k': nat, u: seq<nat>, s: seq<nat>)
    requires Elems(u) == Within(g, R, reverse, k) && Elems(u) <= W && k' == k + 1
    requires Elems(s) == Ring(g, R, reverse, k + 1) && NoDup(s) && Elems(s) <= W
    ensures Frontier(g, R, reverse, W, k', u, s)
  {
  }

  /** Visiting a new vertex leaves fewer unvisited ones. */
  lemma DiffShrinks(W: set<nat>, A: set<nat>, B: set<nat>, x: nat)
    requires A <= B && x in W && x in B && x !in A
    ensures |W - B| < |W - A|
  {
    var D := (W - A) - {x};
    assert W - B <= D;
    assert |D| == |W - A| - 1;
    assert |W - B| <= |D| by {
      assert D == (W - B) + (D - (W - B));
      assert (W - B) * (D - (W - B)) == {};
    }
  }

  lemma NextGeneration(g: Vertices, R: set<nat>, reverse: bool, k: nat, s: seq<nat>, u: seq<nat>, W: set<nat>)
    requires W == R + Linked(g)
    requires Elems(s) == Ring(g, R, reverse, k) && Elems(u) == Within(g, R, reverse, k)
    requires Ring(g, R, reverse, k + 1) == Around(g, Ring(g, R, reverse, k), reverse) - Within(g, R, reverse, k)
    ensures var s' := Without(Dedup(Listed(g, s, reverse)), u);
      Elems(s') == Ring(g, R, reverse, k + 1) && NoDup(s') && Elems(s') <= W
  {
    var l := Listed(g, s, reverse);
    ListedElems(g, s, reverse);
    AroundLinked(g, Elems(s), reverse);
    DedupFacts(l);
  }

  /** The generator's state before a round: `u` lists the vertices visited
      so far and `s` the current generation. */
  ghost predicate Frontier(g: Vertices, R: set<nat>, reverse: bool, W: set<nat>, k: nat, u: seq<nat>, s: seq<nat>) {
    Elems(u) == (if k == 0 then {} else Within(g, R, reverse, k - 1)) &&
    Elems(s) == Ring(g, R, reverse, k) && (k > 0 ==> NoDup(s)) &&
    Elems(u) <= W && Elems(s) <= W
  }

  /** `gens` are the generations from number `skip` on, none empty, each
      without duplicates unless it is the list of roots. */
  ghost predicate Generations(g: Vertices, R: set<nat>, reverse: bool, skip: nat, gens: seq<seq<nat>>) {
    forall i :: 0 <= i < |gens| ==>
      gens[i] != [] && Elems(gens[i]) == Ring(g, R, reverse, skip + i) && (0 < skip + i ==> NoDup(gens[i]))
  }

  /** Generation `n` and every later one are empty. */
  ghost predicate Exhausted(g: Vertices, R: set<nat>, reverse: bool, n: nat) {
    forall m :: n <= m ==> Ring(g, R, reverse, m) == {}
  }

  lemma GenerationsSnoc(g: Vertices, R: set<nat>, reverse: bool, W: set<nat>, skip: nat, gens: seq<seq<nat>>,
                         k: nat, u: seq<nat>, s: seq<nat>)
    requires Generations(g, R, reverse, skip, gens) && s != []
    requires Frontier(g, R, reverse, W, k, u, s) && k == skip + |gens|
    ensures Generations(g, R, reverse, skip, gens + [s])
  {
  }

  /** When the generator stops, the generations after the last one yielded
      are empty, and the ones yielded are pairwise disjoint. */
  lemma BfsDone(g: Vertices, R: set<nat>, reverse: bool, W: set<nat>, k: nat, u: seq<nat>, skip0: nat, gens: seq<seq<nat>>)
    requires Frontier(g, R, reverse, W, k, u, []) && |gens| == (if k <= skip0 then 0 else k - skip0)
    requires Generations(g, R, reverse, skip0, gens)
    ensures Exhausted(g, R, reverse, skip0 + |gens|)
    ensures forall i, j :: 0 <= i < j < |gens| ==> Elems(gens[i]) !! Elems(gens[j])
  {
    forall m | skip0 + |gens| <= m ensures Ring(g, R, reverse, m) == {} {
      RingEmptyStays(g, R, reverse, k, m);
    }
    forall i, j | 0 <= i < j < |gens| ensures Elems(gens[i]) !! Elems(gens[j]) {
      TwoGenerations(g, R, reverse, skip0, gens, i, j);
    }
  }

  lemma TwoGenerations(g: Vertices, R: set<nat>, reverse: bool, skip0: nat, gens: seq<seq<nat>>, i: nat, j: nat)
    requires Generations(g, R, reverse, skip0, gens) && i < j < |gens|
    ensures Elems(gens[i]) !! Elems(gens[j])
  {
    RingsDisjoint(g, R, reverse, skip0 + i, skip0 + j);
  }

  /** The loop state of the generator: the frontier, the generations still
      to skip and the generations yielded so far. */
  ghost predicate Searching(g: Vertices, R: set<nat>, reverse: bool, W: set<nat>, skip0: nat,
                            k: nat, u: seq<nat>, s: seq<nat>, skip: nat, gens: seq<seq<nat>>) {
    W == R + Linked(g) && Frontier(g, R, reverse, W, k, u, s) &&
    skip == (if k <= skip0 then skip0 - k else 0) && |gens| == (if k <= skip0 then 0 else k - skip0) &&
    Generations(g, R, reverse, skip0, gens)
  }

  lemma SearchStart(g: Vertices, vs: seq<nat>, reverse: bool, skip0: nat)
    ensures Searching(g, Elems(vs), reverse, Elems(vs) + Linked(g), skip0, 0, [], vs, skip0, [])
  {
  }

  /** A round in which the current generation is skipped. */
  lemma SearchSkip(g: Vertices, R: set<nat>, reverse: bool, W: set<nat>, skip0: nat,
                   k: nat, k': nat, u: seq<nat>, s: seq<nat>, skip: nat, gens: seq<seq<nat>>)
    requires Searching(g, R, reverse, W, skip0, k, u, s, skip, gens) && s != [] && skip > 0 && k' == k + 1
    ensures Searching(g, R, reverse, W, skip0, k', Dedup(u + s),
                      Without(Dedup(Listed(g, s, reverse)), Dedup(u + s)), skip - 1, gens)
    ensures |W - Elems(Dedup(u + s))| < |W - Elems(u)|
  {
    BfsRound(g, R, reverse, k, k', u, s, W);
  }

  /** A round in which the current generation is yielded. */
  lemma SearchYield(g: Vertices, R: set<nat>, reverse: bool, W: set<nat>, skip0: nat,
                    k: nat, k': nat, u: seq<nat>, s: seq<nat>, skip: nat, gens: seq<seq<nat>>)
    requires Searching(g, R, reverse, W, skip0, k, u, s, skip, gens) && s != [] && skip == 0 && k' == k + 1
    ensures Searching(g, R, reverse, W, skip0, k', Dedup(u + s),
                      Without(Dedup(Listed(g, s, reverse)), Dedup(u + s)), 0, gens + [s])
    ensures |W - Elems(Dedup(u + s))| < |W - Elems(u)|
  {
    GenerationsSnoc(g, R, reverse, W, skip0, gens, k, u, s);
    BfsRound(g, R, reverse, k, k', u, s, W);
  }

  /** When the generator stops, the generations after the last one yielded
      are empty, and the ones yielded are pairwise disjoint. */
  lemma SearchDone(g: Vertices, R: set<nat>, reverse: bool, W: set<nat>, skip0: nat,
                   k: nat, u: seq<nat>, s: seq<nat>, skip: nat, gens: seq<seq<nat>>)
    requires Searching(g, R, reverse, W, skip0, k, u, s, skip, gens) && s == []
    ensures Generations(g, R, reverse, skip0, gens)
    ensures Exhausted(g, R, reverse, skip0 + |gens|)
    ensures forall i, j :: 0 <= i < j < |gens| ==> Elems(gens[i]) !! Elems(gens[j])
  {
    BfsDone(g, R, reverse, W, k, u, skip0, gens);
  }
}
