/** The observers of `filter(d)` in `server/model.mjs`. Observer 1 measures
    each location on its own: it draws one of the location's cliques with
    the probabilities of `probs`. Observer 2 measures the whole system: it
    draws a clique from the pool of all cliques, keeps only the cliques
    spacelike to it, and repeats until the pool is empty. Both draw with the
    source's loop bound `P.length - 2`. Observer 2 as the source writes it
    throws at once (`ObserveWholeAsWritten`), and that is what the server
    engine does; `ObserveWhole` is the loop with `Lctmp` declared. */
module EngineObserve {
  import opened SeqUtil
  import opened CausalGraph
  import opened EngineCore
  import opened Factorials
  import opened Probabilities
  import opened EngineFilter
  import opened EngineOper

  /** `cliques.map(x => x.parent.length)`. */
  function Arities(V: Arena, cs: seq<nat>): (r: seq<nat>)
    ensures |r| == |cs| && forall i {:trigger r[i]} :: 0 <= i < |cs| ==> r[i] == Arity(V, cs[i])
  {
    seq(|cs|, i requires 0 <= i < |cs| => Arity(V, cs[i]))
  }

  /** `probs(cliques)` for cliques of the sizes `lens`: each clique's share
      of the total of the factorials, in whole ten-thousandths, as a
      number. */
  function ProbsOf(lens: seq<nat>): (P: seq<real>)
    ensures |P| == |lens|
  {
    if lens == [] then []
    else
      FactTotalPositive(lens);
      seq(|lens|, i requires 0 <= i < |lens| => Share(Fact(lens[i]), Total(FactWeights(lens))) as real / 10000.0)
  }

  /** `probs(cliques)` with the factorial memo. */
  method CliqueProbs(m0: seq<nat>, V: Arena, cs: seq<nat>) returns (m: seq<nat>, P: seq<real>)
    requires FactMemo(m0)
    ensures FactMemo(m) && P == ProbsOf(Arities(V, cs))
  {
    var lens := Arities(V, cs);
    var p;
    m, p := Probs(m0, lens);
    P := seq(|p|, i requires 0 <= i < |p| => p[i] as real / 10000.0);
  }

  /** The index the draw `r` picks from `P`, with the loop bound
      `P.length - 2` of the source: the last of two or more cliques is
      never picked. */
  function Drawn(P: seq<real>, r: real): (n: nat)
    requires P != []
    ensures n < |P| && (|P| >= 2 ==> n < |P| - 1)
  {
    DrawIndexFirst(P, r, |P| - 2, 0);
    DrawIndex(P, r, |P| - 2, 0)
  }

  // ---- observer 1 ----

  /** The clique that the draw `r` picks for location `l`, or none when the
      location has no cliques. */
  function PickAt(V: Arena, l: nat, r: real): (pick: seq<nat>)
    ensures |pick| <= 1 && forall c :: c in pick ==> l in V && c in V[l].parents
    ensures l in V && V[l].parents != [] ==> |pick| == 1
  {
    var cl := if l in V then V[l].parents else [];
    if cl == [] then [] else [cl[Drawn(ProbsOf(Arities(V, cl)), r)]]
  }

  /** `Lc` after the turns for the first `n` locations, location `i` using
      the draw `rand(i)`. */
  function Picks(V: Arena, Ll: seq<nat>, rand: nat -> real, n: nat): seq<nat>
    requires n <= |Ll|
  {
    if n == 0 then [] else Picks(V, Ll, rand, n - 1) + PickAt(V, Ll[n - 1], rand(n - 1))
  }

  /** The observer-1 loop. The progress report after location `i` may find
      the job aborted (oracle `proceed(i)`). */
  method ObserveEach(m0: seq<nat>, V: Arena, Ll: seq<nat>, rand: nat -> real, proceed: nat -> bool)
    returns (m: seq<nat>, Lc: seq<nat>, ok: bool)
    requires FactMemo(m0)
    ensures FactMemo(m)
    ensures ok ==> Lc == Picks(V, Ll, rand, |Ll|) && forall i :: 0 <= i < |Ll| ==> proceed(i)
    ensures !ok ==> exists k :: 0 <= k < |Ll| && !proceed(k) && Lc == Picks(V, Ll, rand, k + 1)
  {
    m, Lc := m0, [];
    for i := 0 to |Ll|
      invariant FactMemo(m) && Lc == Picks(V, Ll, rand, i)
      invariant forall k :: 0 <= k < i ==> proceed(k)
    {
      var pick;
      m, pick := PickTurn(m, V, Ll[i], rand(i));
      Lc := Lc + pick;
      if !proceed(i) {
        return m, Lc, false;
      }
    }
    ok := true;
  }

  /** One turn of the observer-1 loop: the probabilities of the location's
      cliques and the draw among them. */
  method PickTurn(m0: seq<nat>, V: Arena, l: nat, r: real) returns (m: seq<nat>, pick: seq<nat>)
    requires FactMemo(m0)
    ensures FactMemo(m) && pick == PickAt(V, l, r)
  {
    var cl := if l in V then V[l].parents else [];
    var P;
    m, P := CliqueProbs(m0, V, cl);
    pick := [];
    if cl != [] {
      var ndx := DrawAsWritten(P, r);
      pick := [cl[ndx]];
    }
  }

  /** When every location has a clique, observer 1 keeps exactly one clique
      per location, and it is one of that location's own cliques. */
  lemma PicksOnePerLocation(V: Arena, Ll: seq<nat>, rand: nat -> real, n: nat)
    requires n <= |Ll|
    requires forall i :: 0 <= i < |Ll| ==> Ll[i] in V && V[Ll[i]].parents != []
    ensures |Picks(V, Ll, rand, n)| == n
    ensures forall i {:trigger Picks(V, Ll, rand, n)[i]} :: 0 <= i < n ==> Picks(V, Ll, rand, n)[i] in V[Ll[i]].parents
  {
    PicksLength(V, Ll, rand, n);
    forall i | 0 <= i < n ensures Picks(V, Ll, rand, n)[i] in V[Ll[i]].parents {
      PicksAt(V, Ll, rand, n, i);
    }
  }

  /** One clique per location when every location has one. */
  lemma {:induction false} PicksLength(V: Arena, Ll: seq<nat>, rand: nat -> real, n: nat)
    requires n <= |Ll|
    requires forall i :: 0 <= i < |Ll| ==> Ll[i] in V && V[Ll[i]].parents != []
    ensures |Picks(V, Ll, rand, n)| == n
  {
    if n > 0 {
      PicksLength(V, Ll, rand, n - 1);
      PickOne(V, Ll[n - 1], rand(n - 1));
      assert Picks(V, Ll, rand, n) == Picks(V, Ll, rand, n - 1) + PickAt(V, Ll[n - 1], rand(n - 1));
    }
  }

  /** The clique for location `i` is one of that location's cliques. */
  lemma {:induction false} PicksAt(V: Arena, Ll: seq<nat>, rand: nat -> real, n: nat, i: nat)
    requires i < n <= |Ll|
    requires forall i :: 0 <= i < |Ll| ==> Ll[i] in V && V[Ll[i]].parents != []
    ensures |Picks(V, Ll, rand, n)| == n && Picks(V, Ll, rand, n)[i] in V[Ll[i]].parents
  {
    PicksLength(V, Ll, rand, n);
    PickOne(V, Ll[n - 1], rand(n - 1));
    assert Picks(V, Ll, rand, n) == Picks(V, Ll, rand, n - 1) + PickAt(V, Ll[n - 1], rand(n - 1));
    if i < n - 1 {
      PicksAt(V, Ll, rand, n - 1, i);
    }
  }

  /** A location with cliques gets exactly one of them. */
  lemma PickOne(V: Arena, l: nat, r: real)
    requires l in V && V[l].parents != []
    ensures |PickAt(V, l, r)| == 1 && PickAt(V, l, r)[0] in V[l].parents
  {
    assert PickAt(V, l, r)[0] in PickAt(V, l, r);
  }

  // ---- observer 2 ----

  /** `pool.filter(x => isSpacelike(x, c))`. Since no clique is spacelike to
      itself, a pool that holds `c` shrinks. */
  function SpacelikeTo(g: Graph, pool: seq<nat>, c: nat): (r: seq<nat>)
    requires ParentsBelow(g)
    ensures forall x :: x in r <==> x in pool && Spacelike(g, x, c)
    ensures |r| <= |pool| && (c in pool ==> |r| < |pool|)
    decreases |pool|
  {
    if pool == [] then []
    else
      var x := pool[|pool| - 1];
      var pre := pool[..|pool| - 1];
      assert pool == pre + [x];
      SpacelikeTo(g, pre, c) + if Spacelike(g, x, c) then [x] else []
  }

  /** The filter loop. */
  method KeepSpacelike(g: Graph, pool: seq<nat>, c: nat) returns (r: seq<nat>)
    requires ParentsBelow(g)
    ensures r == SpacelikeTo(g, pool, c)
  {
    r := [];
    for i := 0 to |pool|
      invariant r == SpacelikeTo(g, pool[..i], c)
    {
      assert pool[..i + 1][..i] == pool[..i];
      var keep := IsSpacelike(g, pool[i], c);
      if keep {
        r := r + [pool[i]];
      }
    }
    assert pool[..|pool|] == pool;
  }

  /** Some selected clique is not spacelike to `x`. */
  ghost predicate Excluded(g: Graph, x: nat, Lc: seq<nat>)
    requires ParentsBelow(g)
  {
    exists i :: 0 <= i < |Lc| && !Spacelike(g, x, Lc[i])
  }

  /** The observer-2 loop as intended, with `Lctmp` declared as a local;
      round `k` uses the draw `rand(k)`. The progress
      report after each round may find the job aborted (oracle
      `proceed(n)` with `n` cliques selected). The selected cliques come
      from the pool and are pairwise spacelike; once the pool is used up
      every other clique of it is excluded by one of them, so the selection
      is maximal. */
  method ObserveWhole(m0: seq<nat>, V: Arena, Lc0: seq<nat>, rand: nat -> real, proceed: nat -> bool)
    returns (m: seq<nat>, Lc: seq<nat>, ok: bool)
    requires FactMemo(m0) && ParentsBelow(Project(V))
    ensures FactMemo(m)
    ensures forall x :: x in Lc ==> x in Lc0
    ensures forall i, j :: 0 <= i < |Lc| && 0 <= j < |Lc| && i != j ==> Spacelike(Project(V), Lc[i], Lc[j])
    ensures ok ==> forall x :: x in Lc0 ==> x in Lc || Excluded(Project(V), x, Lc)
    ensures ok ==> (Lc == [] <==> Lc0 == [])
    ensures !ok ==> Lc != [] && !proceed(|Lc|)
  {
    var g := Project(V);
    m, Lc, ok := m0, [], true;
    var pool := Lc0;
    while pool != []
      invariant FactMemo(m) && Selection(g, Lc0, pool, Lc)
      invariant pool == Lc0 || Lc != []
      decreases |pool|
    {
      m, pool, Lc := ObserveRound(m, V, Lc0, pool, Lc, rand(|Lc|));
      if !proceed(|Lc|) {
        ok := false;
        break;
      }
    }
    SelectionPairwise(g, Lc0, pool, Lc);
    if Lc != [] {
      assert Lc[0] in Lc;
    }
  }

  /** The loop invariant of observer 2: the pool and the selection come from
      the original pool, every pooled clique is spacelike to every selected
      one, the selected ones are pairwise spacelike (later to earlier), and
      every clique of the original pool is pooled, selected or excluded. */
  ghost predicate Selection(g: Graph, Lc0: seq<nat>, pool: seq<nat>, Lc: seq<nat>)
    requires ParentsBelow(g)
  {
    (forall x :: x in pool ==> x in Lc0) &&
    (forall x :: x in Lc ==> x in Lc0) &&
    (forall x, i :: x in pool && 0 <= i < |Lc| ==> Spacelike(g, x, Lc[i])) &&
    (forall i, j :: 0 <= i < j < |Lc| ==> Spacelike(g, Lc[j], Lc[i])) &&
    (forall x :: x in Lc0 ==> x in pool || x in Lc || Excluded(g, x, Lc))
  }

  /** One round of observer 2: draw a clique from the pool, select it and
      keep in the pool only the cliques spacelike to it. */
  method ObserveRound(m0: seq<nat>, V: Arena, ghost Lc0: seq<nat>, pool0: seq<nat>, Lc0': seq<nat>, r: real)
    returns (m: seq<nat>, pool: seq<nat>, Lc: seq<nat>)
    requires FactMemo(m0) && ParentsBelow(Project(V)) && pool0 != []
    requires Selection(Project(V), Lc0, pool0, Lc0')
    ensures FactMemo(m) && Selection(Project(V), Lc0, pool, Lc)
    ensures |pool| < |pool0| && Lc != []
  {
    var g := Project(V);
    var P;
    m, P := CliqueProbs(m0, V, pool0);
    var ndx := DrawAsWritten(P, r);
    var c := pool0[ndx];
    Lc := Lc0' + [c];
    pool := KeepSpacelike(g, pool0, c);
    SelectionStep(g, Lc0, pool0, Lc0', c);
  }

  /** Selecting a pooled clique and filtering the pool by it keeps the
      invariant. */
  lemma SelectionStep(g: Graph, Lc0: seq<nat>, pool: seq<nat>, Lc: seq<nat>, c: nat)
    requires ParentsBelow(g) && Selection(g, Lc0, pool, Lc) && c in pool
    ensures Selection(g, Lc0, SpacelikeTo(g, pool, c), Lc + [c])
  {
    var Lc2, rest := Lc + [c], SpacelikeTo(g, pool, c);
    forall x | x in Lc0 ensures x in rest || x in Lc2 || Excluded(g, x, Lc2) {
      if x in pool && x !in rest && x != c {
        assert !Spacelike(g, x, Lc2[|Lc2| - 1]);
      }
      if Excluded(g, x, Lc) {
        var i :| 0 <= i < |Lc| && !Spacelike(g, x, Lc[i]);
        assert Lc2[i] == Lc[i];
      }
    }
    forall x, i | x in rest && 0 <= i < |Lc2| ensures Spacelike(g, x, Lc2[i]) {
      if i < |Lc| {
        assert Lc2[i] == Lc[i];
      }
    }
    forall i, j | 0 <= i < j < |Lc2| ensures Spacelike(g, Lc2[j], Lc2[i]) {
      if j == |Lc| {
        assert Lc2[i] == Lc[i];
      } else {
        assert Lc2[j] == Lc[j] && Lc2[i] == Lc[i];
      }
    }
  }

  /** The selection is pairwise spacelike in both orders. */
  lemma SelectionPairwise(g: Graph, Lc0: seq<nat>, pool: seq<nat>, Lc: seq<nat>)
    requires ParentsBelow(g) && Selection(g, Lc0, pool, Lc)
    ensures forall i, j :: 0 <= i < |Lc| && 0 <= j < |Lc| && i != j ==> Spacelike(g, Lc[i], Lc[j])
  {
    forall i, j | 0 <= i < |Lc| && 0 <= j < |Lc| && i != j ensures Spacelike(g, Lc[i], Lc[j]) {
      if i < j {
        SpacelikeSymmetric(g, Lc[j], Lc[i]);
      }
    }
  }

  /** The observer-2 branch as `server/model.mjs` writes it: it first
      assigns `Lctmp`, which is declared nowhere, and an ES module runs in
      strict mode, so the assignment throws before any clique is drawn. */
  function ObserveWholeAsWritten(Lc: seq<nat>): Outcome<seq<nat>> {
    Threw(ReferenceError("Lctmp is not defined"))
  }

  /** Whatever the cliques, observer 2 as written never selects any, while
      the corrected `ObserveWhole` selects at least one from any non-empty
      pool it finishes. */
  lemma ObserveWholeAsWrittenThrows(Lc: seq<nat>)
    ensures ObserveWholeAsWritten(Lc).Threw? && ObserveWholeAsWritten(Lc).err.ReferenceError?
  {
  }
}
