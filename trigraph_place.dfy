/** The updates one round of the location loop in `next` of
    `modules/Trigraph.mjs` makes to the vertices and locations, each as a
    function over the values it changes, with what it does to every single
    vertex or location. */
module TrigraphPlace {
  import opened SeqUtil
  import opened Factorials
  import opened Probabilities
  import opened EngineSetup
  import opened TrigraphGraph

  // ---- `[...new Set(vs.map(v => v.location))]` ----

  /** `vs.map(v => v.location)` for the members of `vs` that are states with
      a location. */
  function Handles(V: Vertices, vs: seq<nat>): seq<nat>
    decreases |vs|
  {
    if vs == [] then []
    else
      var x := vs[|vs| - 1];
      Handles(V, vs[..|vs| - 1]) + if x in V && V[x].kind.State? && V[x].kind.location.Some? then [V[x].kind.location.value] else []
  }

  /** The locations of the located states among `R`. */
  ghost function LocationsOf(V: Vertices, R: set<nat>): set<nat> {
    set x | x in R && x in V && V[x].kind.State? && V[x].kind.location.Some? :: V[x].kind.location.value
  }

  /** The handles read off a list are the locations of its states. */
  lemma {:induction false} HandlesElems(V: Vertices, vs: seq<nat>)
    ensures Elems(Handles(V, vs)) == LocationsOf(V, Elems(vs))
    decreases |vs|
  {
    if vs != [] {
      var pre, x := vs[..|vs| - 1], vs[|vs| - 1];
      HandlesElems(V, pre);
      assert vs == pre + [x];
      assert Elems(vs) == Elems(pre) + {x};
    }
  }

  /** Every state's location is one of the first `n` locations. */
  ghost predicate HandlesBelow(V: Vertices, n: nat) {
    forall x :: x in V && V[x].kind.State? && V[x].kind.location.Some? ==> V[x].kind.location.value < n
  }

  /** The locations of located states are below the bound on all of
      them. */
  lemma LocationsBelow(V: Vertices, R: set<nat>, n: nat)
    requires HandlesBelow(V, n)
    ensures forall c :: c in LocationsOf(V, R) ==> c < n
  {
  }

  // ---- `G.forEach(v => v.location = location)` ----

  /** The kind of a vertex once it is put in location `h`: only a state
      carries a location. */
  function Located(k: Kind, h: nat): Kind {
    if k.State? then State(k.value, Some(h)) else k
  }

  /** Every vertex of `G` put in location `h`. */
  function MarkAll(V: Vertices, G: seq<nat>, h: nat): Vertices
    decreases |G|
  {
    if G == [] then V
    else
      var V' := MarkAll(V, G[..|G| - 1], h);
      var x := G[|G| - 1];
      if x in V' then V'[x := V'[x].(kind := Located(V'[x].kind, h))] else V'
  }

  /** Marking changes the kind of the members of `G` and nothing else. */
  lemma {:induction false} MarkAt(V: Vertices, G: seq<nat>, h: nat)
    ensures forall x :: x in MarkAll(V, G, h) <==> x in V
    ensures forall x :: x in V ==> MarkAll(V, G, h)[x] == if x in G then V[x].(kind := Located(V[x].kind, h)) else V[x]
    decreases |G|
  {
    if G != [] {
      MarkAt(V, G[..|G| - 1], h);
      assert forall x :: x in G <==> x in G[..|G| - 1] || x == G[|G| - 1];
    }
  }

  // ---- `ls.forEach(c => c.child.push(location))` ----

  /** Location `h` appended to the children of each location of `ls`. */
  function Adopt(locs: seq<Location>, ls: seq<nat>, h: nat): (r: seq<Location>)
    ensures |r| == |locs|
    decreases |ls|
  {
    if ls == [] then locs
    else
      var r := Adopt(locs, ls[..|ls| - 1], h);
      var c := ls[|ls| - 1];
      if c < |r| then r[c := r[c].(children := r[c].children + [h])] else r
  }

  /** Each listed location gains `h` as its last child, once. */
  lemma {:induction false} AdoptAt(locs: seq<Location>, ls: seq<nat>, h: nat)
    requires NoDup(ls)
    ensures forall c :: 0 <= c < |locs| ==>
      Adopt(locs, ls, h)[c] == locs[c].(children := locs[c].children + if c in ls then [h] else [])
    decreases |ls|
  {
    if ls != [] {
      var pre := ls[..|ls| - 1];
      AdoptAt(locs, pre, h);
      assert forall c :: c in ls <==> c in pre || c == ls[|ls| - 1];
      assert ls[|ls| - 1] !in pre;
    }
  }

  // ---- `c.forEach(v => v.child.push(u))` ----

  /** Vertex `u` appended to the children of each member of `c`. */
  function PushChild(V: Vertices, c: seq<nat>, u: nat): Vertices
    decreases |c|
  {
    if c == [] then V
    else
      var V' := PushChild(V, c[..|c| - 1], u);
      var v := c[|c| - 1];
      if v in V' then V'[v := V'[v].(children := V'[v].children + [u])] else V'
  }

  /** Each member gains `u` as its last child, once. */
  lemma {:induction false} PushChildAt(V: Vertices, c: seq<nat>, u: nat)
    requires NoDup(c)
    ensures forall x :: x in PushChild(V, c, u) <==> x in V
    ensures forall x :: x in V ==> PushChild(V, c, u)[x] == V[x].(children := V[x].children + if x in c then [u] else [])
    decreases |c|
  {
    if c != [] {
      var pre := c[..|c| - 1];
      PushChildAt(V, pre, u);
      assert forall x :: x in c <==> x in pre || x == c[|c| - 1];
      assert c[|c| - 1] !in pre;
    }
  }

  // ---- `MC.forEach(c => ...)` ----

  /** The ids of the cliques, numbered from `b` on, that hold `x`. */
  function Containing(MC: seq<seq<nat>>, x: nat, b: nat): seq<nat>
    decreases |MC|
  {
    if MC == [] then []
    else Containing(MC[..|MC| - 1], x, b) + if x in MC[|MC| - 1] then [b + |MC| - 1] else []
  }

  /** One new clique vertex per list of `MC`, with the ids after `a` and the
      probability numerators `ps`, each pushed onto the children of its
      members. */
  function Cliqued(V: Vertices, a: nat, MC: seq<seq<nat>>, ps: seq<nat>): Vertices
    requires |ps| == |MC|
    decreases |MC|
  {
    if MC == [] then V
    else
      var n := |MC|;
      var V' := Cliqued(V, a, MC[..n - 1], ps[..n - 1]);
      PushChild(V'[a + n := Vertex(0, MC[n - 1], [], Clique(ps[n - 1]))], MC[n - 1], a + n)
  }

  /** One more clique. */
  lemma CliquedSnoc(V: Vertices, a: nat, MC: seq<seq<nat>>, ps: seq<nat>, i: nat)
    requires |ps| == |MC| && i < |MC|
    ensures Cliqued(V, a, MC[..i + 1], ps[..i + 1]) ==
      PushChild(Cliqued(V, a, MC[..i], ps[..i])[a + i + 1 := Vertex(0, MC[i], [], Clique(ps[i]))], MC[i], a + i + 1)
  {
    assert MC[..i + 1][..i] == MC[..i] && ps[..i + 1][..i] == ps[..i];
  }

  /** The members of every clique are stored vertices with ids up to `a`,
      each listed once. */
  ghost predicate Members(V: Vertices, a: nat, MC: seq<seq<nat>>) {
    (forall x :: x in V ==> x <= a) &&
    forall j :: 0 <= j < |MC| ==> NoDup(MC[j]) && forall v :: v in MC[j] ==> v in V
  }

  /** The new cliques take the ids `a + 1`, `a + 2`, ... in order, with
      their lists as parents and no children; every stored vertex gains the
      ids of the cliques it belongs to as its last children, in order. */
  lemma CliquedAt(V: Vertices, a: nat, MC: seq<seq<nat>>, ps: seq<nat>)
    requires |ps| == |MC| && Members(V, a, MC)
    ensures forall x :: x in Cliqued(V, a, MC, ps) <==> x in V || a < x <= a + |MC|
    ensures forall x :: x in V ==>
      Cliqued(V, a, MC, ps)[x] == V[x].(children := V[x].children + Containing(MC, x, a + 1))
    ensures forall j :: 0 <= j < |MC| ==> Cliqued(V, a, MC, ps)[a + 1 + j] == Vertex(0, MC[j], [], Clique(ps[j]))
  {
    CliquedKeys(V, a, MC, ps);
    CliquedOld(V, a, MC, ps);
    CliquedNew(V, a, MC, ps);
  }

  lemma {:induction false} CliquedKeys(V: Vertices, a: nat, MC: seq<seq<nat>>, ps: seq<nat>)
    requires |ps| == |MC| && Members(V, a, MC)
    ensures forall x :: x in Cliqued(V, a, MC, ps) <==> x in V || a < x <= a + |MC|
    decreases |MC|
  {
    if MC != [] {
      var n := |MC|;
      var V' := Cliqued(V, a, MC[..n - 1], ps[..n - 1]);
      CliquedKeys(V, a, MC[..n - 1], ps[..n - 1]);
      PushChildAt(V'[a + n := Vertex(0, MC[n - 1], [], Clique(ps[n - 1]))], MC[n - 1], a + n);
    }
  }

  lemma {:induction false} CliquedOld(V: Vertices, a: nat, MC: seq<seq<nat>>, ps: seq<nat>)
    requires |ps| == |MC| && Members(V, a, MC)
    ensures forall x :: x in V ==>
      x in Cliqued(V, a, MC, ps) && Cliqued(V, a, MC, ps)[x] == V[x].(children := V[x].children + Containing(MC, x, a + 1))
    decreases |MC|
  {
    if MC != [] {
      var n := |MC|;
      CliquedOld(V, a, MC[..n - 1], ps[..n - 1]);
      forall x | x in V
        ensures x in Cliqued(V, a, MC, ps) && Cliqued(V, a, MC, ps)[x] == V[x].(children := V[x].children + Containing(MC, x, a + 1))
      {
        CliquedOldStep(V, a, MC, ps, x);
      }
    }
  }

  /** One vertex through the last clique: the induction step of
      `CliquedOld`. */
  lemma CliquedOldStep(V: Vertices, a: nat, MC: seq<seq<nat>>, ps: seq<nat>, x: nat)
    requires |ps| == |MC| && MC != [] && Members(V, a, MC) && x in V
    requires var V' := Cliqued(V, a, MC[..|MC| - 1], ps[..|MC| - 1]);
      x in V' && V'[x] == V[x].(children := V[x].children + Containing(MC[..|MC| - 1], x, a + 1))
    ensures x in Cliqued(V, a, MC, ps) && Cliqued(V, a, MC, ps)[x] == V[x].(children := V[x].children + Containing(MC, x, a + 1))
  {
    var n := |MC|;
    var V' := Cliqued(V, a, MC[..n - 1], ps[..n - 1]);
    var W := V'[a + n := Vertex(0, MC[n - 1], [], Clique(ps[n - 1]))];
    assert x != a + n;
    PushChildAt(W, MC[n - 1], a + n);
    var A, B := Containing(MC[..n - 1], x, a + 1), if x in MC[n - 1] then [a + n] else [];
    assert Containing(MC, x, a + 1) == A + B;
    assert V[x].children + A + B == V[x].children + (A + B);
  }

  lemma CliquedNew(V: Vertices, a: nat, MC: seq<seq<nat>>, ps: seq<nat>)
    requires |ps| == |MC| && Members(V, a, MC)
    ensures forall j :: 0 <= j < |MC| ==>
      a + 1 + j in Cliqued(V, a, MC, ps) && Cliqued(V, a, MC, ps)[a + 1 + j] == Vertex(0, MC[j], [], Clique(ps[j]))
  {
    forall j | 0 <= j < |MC|
      ensures a + 1 + j in Cliqued(V, a, MC, ps) && Cliqued(V, a, MC, ps)[a + 1 + j] == Vertex(0, MC[j], [], Clique(ps[j]))
    {
      CliquedNewAt(V, a, MC, ps, j);
    }
    CliquedKeys(V, a, MC, ps);
  }

  /** Clique `j` is stored under id `a + 1 + j`: the induction behind
      `CliquedNew`, one index at a time. */
  lemma {:induction false} CliquedNewAt(V: Vertices, a: nat, MC: seq<seq<nat>>, ps: seq<nat>, j: nat)
    requires |ps| == |MC| && Members(V, a, MC) && j < |MC|
    ensures a + 1 + j in Cliqued(V, a, MC, ps) && Cliqued(V, a, MC, ps)[a + 1 + j] == Vertex(0, MC[j], [], Clique(ps[j]))
    decreases |MC|
  {
    var n := |MC|;
    var V' := Cliqued(V, a, MC[..n - 1], ps[..n - 1]);
    var W := V'[a + n := Vertex(0, MC[n - 1], [], Clique(ps[n - 1]))];
    assert a + 1 + j !in MC[n - 1];
    if j < n - 1 {
      MembersPrefix(V, a, MC);
      CliquedNewAt(V, a, MC[..n - 1], ps[..n - 1], j);
      assert MC[..n - 1][j] == MC[j] && ps[..n - 1][j] == ps[j];
      assert a + 1 + j in W && W[a + 1 + j] == V'[a + 1 + j];
    }
    PushChildAt(W, MC[n - 1], a + n);
  }

  lemma MembersPrefix(V: Vertices, a: nat, MC: seq<seq<nat>>)
    requires Members(V, a, MC) && MC != []
    ensures Members(V, a, MC[..|MC| - 1])
  {
    var P := MC[..|MC| - 1];
    forall j | 0 <= j < |P| ensures NoDup(P[j]) && forall v :: v in P[j] ==> v in V {
      assert P[j] == MC[j];
    }
  }

  // ---- the probabilities ----

  /** The sizes of the cliques. */
  function Sizes(MC: seq<seq<nat>>): (r: seq<nat>)
    ensures |r| == |MC| && forall j :: 0 <= j < |MC| ==> r[j] == |MC[j]|
  {
    seq(|MC|, j requires 0 <= j < |MC| => |MC[j]|)
  }

  /** `fact(c.length) * 10000n / tot` for every clique, with `tot` the sum
      of the factorials of all the sizes. */
  function Shares(MC: seq<seq<nat>>): (ps: seq<nat>)
    ensures |ps| == |MC|
  {
    var tot := Total(FactWeights(Sizes(MC)));
    if tot == 0 then seq(|MC|, j => 0)
    else seq(|MC|, j requires 0 <= j < |MC| => Share(Fact(|MC[j]|), tot))
  }
}
