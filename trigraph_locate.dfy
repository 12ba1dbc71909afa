/** The location loop of `next` in `modules/Trigraph.mjs`: while new states
    are pending, the last one and every pending state equivalent to it form
    a group; the group becomes a new location under the coordinate of the
    popped state, with the locations of its grand-grand-ancestors as
    parents; and the maximal spacelike subsets of the group become new
    cliques with their probability numerators. */
module TrigraphLocate {
  import opened SeqUtil
  import opened Factorials
  import opened Probabilities
  import opened EngineSetup
  import opened CausalGraph
  import opened TrigraphGraph
  import opened TrigraphRings
  import opened TrigraphBfs
  import opened TrigraphSpawn
  import opened TrigraphGroup
  import opened TrigraphPlace
  import opened TrigraphPlaced

  /** `this.bfs(G, true, 3).next().value || []` and the set of the
      locations of its states: the distinct locations of the states three
      links above the group. */
  method Ancestry(V: Vertices, G: seq<nat>) returns (ls: seq<nat>)
    ensures NoDup(ls) && Elems(ls) == LocationsOf(V, Ring(V, Elems(G), true, 3))
  {
    var gens := Bfs(V, G, true, 3);
    var vs := if gens == [] then [] else gens[0];
    assert Elems(vs) == Ring(V, Elems(G), true, 3);
    ls := Dedup(Handles(V, vs));
    DedupFacts(Handles(V, vs));
    HandlesElems(V, vs);
  }

  /** `G.forEach(v => v.location = location)`. */
  method Mark(V0: Vertices, G: seq<nat>, h: nat) returns (V: Vertices)
    ensures V == MarkAll(V0, G, h)
  {
    V := V0;
    var i := 0;
    while i < |G|
      invariant 0 <= i <= |G| && V == MarkAll(V0, G[..i], h)
    {
      assert G[..i + 1][..i] == G[..i];
      var x := G[i];
      if x in V {
        V := V[x := V[x].(kind := Located(V[x].kind, h))];
      }
      i := i + 1;
    }
    assert G[..|G|] == G;
  }

  /** `ls.forEach(c => c.child.push(location))`. */
  method AdoptAll(locs0: seq<Location>, ls: seq<nat>, h: nat) returns (locs: seq<Location>)
    ensures locs == Adopt(locs0, ls, h)
  {
    locs := locs0;
    var i := 0;
    while i < |ls|
      invariant 0 <= i <= |ls| && locs == Adopt(locs0, ls[..i], h)
    {
      assert ls[..i + 1][..i] == ls[..i];
      var c := ls[i];
      if c < |locs| {
        locs := locs[c := locs[c].(children := locs[c].children + [h])];
      }
      i := i + 1;
    }
    assert ls[..|ls|] == ls;
  }

  /** `c.forEach(v => v.child.push(u))`. */
  method PushAll(V0: Vertices, c: seq<nat>, u: nat) returns (V: Vertices)
    ensures V == PushChild(V0, c, u)
  {
    V := V0;
    var i := 0;
    while i < |c|
      invariant 0 <= i <= |c| && V == PushChild(V0, c[..i], u)
    {
      assert c[..i + 1][..i] == c[..i];
      var v := c[i];
      if v in V {
        V := V[v := V[v].(children := V[v].children + [u])];
      }
      i := i + 1;
    }
    assert c[..|c|] == c;
  }

  /** `MC.reduce((a, b) => a + this.fact(b.length), BigInt(0))`. */
  method Weigh(m0: seq<nat>, MC: seq<seq<nat>>) returns (m: seq<nat>, tot: nat)
    requires MemoFromOne(m0) && forall j :: 0 <= j < |MC| ==> MC[j] != []
    ensures MemoFromOne(m) && tot == Total(FactWeights(Sizes(MC)))
  {
    ghost var lens := Sizes(MC);
    m, tot := m0, 0;
    var i := 0;
    assert FactWeights(lens[..0]) == [];
    while i < |MC|
      invariant 0 <= i <= |MC| && MemoFromOne(m) && tot == Total(FactWeights(lens[..i]))
    {
      var f;
      m, f := MemoFactorial(m, |MC[i]|);
      WeightsSnoc(lens, i, FactWeights(lens[..i]));
      tot := tot + f;
      i := i + 1;
    }
    assert lens[..|MC|] == lens;
  }

  /** `MC.forEach(c => ...)`: each clique takes the next id and the
      numerator `fact(c.length) * 10000n / tot`, and is pushed onto the
      children of its members. */
  method MakeCliques(V0: Vertices, a: nat, MC: seq<seq<nat>>, m0: seq<nat>, tot: nat) returns (V: Vertices, m: seq<nat>)
    requires MemoFromOne(m0) && forall j :: 0 <= j < |MC| ==> MC[j] != []
    requires tot == Total(FactWeights(Sizes(MC)))
    ensures MemoFromOne(m) && V == Cliqued(V0, a, MC, Shares(MC))
  {
    ghost var ps := Shares(MC);
    FactTotalPositive(Sizes(MC));
    V, m := V0, m0;
    var i := 0;
    while i < |MC|
      invariant 0 <= i <= |MC| && MemoFromOne(m) && V == Cliqued(V0, a, MC[..i], ps[..i])
    {
      CliquedSnoc(V0, a, MC, ps, i);
      var f;
      m, f := MemoFactorial(m, |MC[i]|);
      var p := Share(f, tot);
      assert p == ps[i];
      V := V[a + i + 1 := Vertex(0, MC[i], [], Clique(p))];
      V := PushAll(V, MC[i], a + i + 1);
      i := i + 1;
    }
    assert MC[..|MC|] == MC && ps[..|MC|] == ps;
  }

  /** Marking a group changes no parents and no levels. */
  lemma MarkWalked(V: Vertices, G: seq<nat>, h: nat)
    requires Below(V)
    ensures Below(MarkAll(V, G, h)) && Walked(MarkAll(V, G, h)) == Walked(V)
  {
    MarkAt(V, G, h);
  }

  /** One round of the location loop for the group `G`, whose first member
      is the popped state. */
  method LocateGroup(sp: Space, coordf: int -> string, G: seq<nat>)
    returns (r: Space, ls: seq<nat>, sorted: seq<nat>, MC: seq<seq<nat>>)
    requires G != [] && NoDup(G) && forall x :: x in G ==> x in sp.V
    requires Below(sp.V) && MemoFromOne(sp.memo)
    ensures NoDup(ls) && Elems(ls) == LocationsOf(sp.V, Ring(sp.V, Elems(G), true, 3))
    ensures multiset(sorted) == multiset(G) && NoDup(sorted)
    ensures ParentsBelow(Walked(sp.V)) && ReportsMaximalSpacelike(Walked(sp.V), G, MC)
    ensures MC != [] && forall j :: 0 <= j < |MC| ==> MC[j] != [] && NoDup(MC[j]) && forall v :: v in MC[j] ==> v in G
    ensures r.V == Cliqued(MarkAll(sp.V, G, |sp.locs|), sp.id, MC, Shares(MC))
    ensures r.locs == Adopt(sp.locs, ls, |sp.locs|) + [Location(sorted, coordf(Value(sp.V, G[0])), ls, [])]
    ensures r.S == Enter(sp.S, coordf(Value(sp.V, G[0])), |sp.locs|)
    ensures r.T == sp.T + [|sp.locs|] && r.cls == sp.cls + Ids(sp.id + 1, |MC|) && r.id == sp.id + |MC|
    ensures MemoFromOne(r.memo)
  {
    var coord := coordf(Value(sp.V, G[0]));
    ls := Ancestry(sp.V, G);
    var h := |sp.locs|;
    var V := Mark(sp.V, G, h);
    var locs := AdoptAll(sp.locs, ls, h);
    var S := Enter(sp.S, coord, h);
    MarkWalked(sp.V, G, h);
    WalkedBelow(sp.V);
    sorted, MC := BronKerbosch(Walked(V), G);
    forall j | 0 <= j < |MC| ensures forall v :: v in MC[j] ==> v in G {
      assert Elems(MC[j]) <= Elems(G);
    }
    locs := locs + [Location(sorted, coord, ls, [])];
    var m, tot := Weigh(sp.memo, MC);
    var V2;
    V2, m := MakeCliques(V, sp.id, MC, m, tot);
    var hs: seq<nat> := [h];
    r := Space(V2, locs, S, sp.T + hs, sp.cls + Ids(sp.id + 1, |MC|), sp.id + |MC|, m);
  }

  /** The location loop over the new states `P`: it ends with every new
      state placed in exactly one of the step's new locations. */
  method Locate(sp0: Space, eq: (int, int) -> bool, coordf: int -> string, P: seq<nat>) returns (r: Space)
    requires Ready(P, sp0)
    ensures Placing(P, sp0, r, [], P)
    ensures P == [] ==> r == sp0
  {
    r := sp0;
    var pending := P;
    ghost var placed: seq<nat> := [];
    PlacingStart(P, sp0);
    while pending != []
      invariant Placing(P, sp0, r, pending, placed)
      invariant placed == [] ==> r == sp0
      decreases |pending|
    {
      var G, rest := Group(r.V, eq, pending);
      GroupedSplits(r.V, eq, pending);
      SplitStep(P, pending, placed, G, rest);
      var r', ls, sorted, MC := LocateGroup(r, coordf, G);
      GroupEffect(r.V, G, |r.locs|, r.id, MC, Shares(MC));
      AdoptEffect(r.locs, ls, Location(sorted, coordf(Value(r.V, G[0])), ls, []));
      LocationsBelow(r.V, Ring(r.V, Elems(G), true, 3), |r.locs|);
      assert sorted != [] by {
        assert G[0] in multiset(sorted);
      }
      PlacingStep(P, sp0, r, pending, placed, G, rest, ls, sorted, coordf(Value(r.V, G[0])), MC, Shares(MC), r');
      r, pending, placed := r', rest, placed + G;
    }
    assert P == [] ==> placed == [] by {
      if P == [] {
        assert |multiset(placed)| == 0;
      }
    }
    PlacingDone(P, sp0, r, placed);
  }
}
