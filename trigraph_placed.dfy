/** What the location loop of `next` in `modules/Trigraph.mjs` keeps true
    from one round to the next: every new state it has taken off the pending
    list sits in exactly one of the step's new locations, the step's
    locations are listed in order and under their coordinates, and the new
    cliques take the next ids. */
module TrigraphPlaced {
  import opened SeqUtil
  import opened Factorials
  import opened EngineSetup
  import opened TrigraphGraph
  import opened TrigraphSpawn
  import opened TrigraphPlace

  /** The part of the trigraph the location loop changes: the vertices, all
      locations made so far (by handle), the locations by coordinate, the
      step's locations (`T`) and cliques (`N[2]`), the id counter and the
      factorial memo. */
  datatype Space = Space(V: Vertices, locs: seq<Location>, S: map<string, seq<nat>>, T: seq<nat>,
                         cls: seq<nat>, id: nat, memo: seq<nat>)

  // ---- one round ----

  /** What one round does to the vertices: the group `G` is put in location
      `h`, the cliques `MC` take the ids after `a` with the probability
      numerators `ps`, and every stored vertex gains the cliques it belongs
      to as children. */
  ghost predicate Effect(V: Vertices, G: seq<nat>, h: nat, a: nat, MC: seq<seq<nat>>, ps: seq<nat>, V2: Vertices) {
    |ps| == |MC| &&
    (forall x :: x in V2 <==> x in V || a < x <= a + |MC|) &&
    (forall x :: x in V ==>
      V2[x] == V[x].(children := V[x].children + Containing(MC, x, a + 1),
                     kind := if x in G then Located(V[x].kind, h) else V[x].kind)) &&
    forall j :: 0 <= j < |MC| ==> V2[a + 1 + j] == Vertex(0, MC[j], [], Clique(ps[j]))
  }

  lemma GroupEffect(V: Vertices, G: seq<nat>, h: nat, a: nat, MC: seq<seq<nat>>, ps: seq<nat>)
    requires |ps| == |MC| && Members(V, a, MC)
    ensures Effect(V, G, h, a, MC, ps, Cliqued(MarkAll(V, G, h), a, MC, ps))
  {
    MarkAt(V, G, h);
    var W := MarkAll(V, G, h);
    assert Members(W, a, MC);
    CliquedAt(W, a, MC, ps);
  }

  /** What one round does to the locations: location `loc` is added with
      the next handle and becomes the last child of each location of `ls`. */
  ghost predicate LocsEffect(locs: seq<Location>, ls: seq<nat>, loc: Location, locs2: seq<Location>) {
    |locs2| == |locs| + 1 && locs2[|locs|] == loc &&
    forall c :: 0 <= c < |locs| ==> locs2[c] == locs[c].(children := locs[c].children + if c in ls then [|locs|] else [])
  }

  lemma AdoptEffect(locs: seq<Location>, ls: seq<nat>, loc: Location)
    requires NoDup(ls)
    ensures LocsEffect(locs, ls, loc, Adopt(locs, ls, |locs|) + [loc])
  {
    AdoptAt(locs, ls, |locs|);
  }

  // ---- the space ----

  /** `this.S.get(c)`, with no list read as an empty one. */
  function Get(S: map<string, seq<nat>>, c: string): seq<nat> {
    if c in S then S[c] else []
  }

  /** `space ? space.push(h) : this.S.set(c, [h])`. */
  function Enter(S: map<string, seq<nat>>, c: string, h: nat): map<string, seq<nat>> {
    var one: seq<nat> := [h];
    S[c := Get(S, c) + one]
  }

  /** The handles of `hs` whose location has coordinate `c`, in order. */
  function AtCoord(locs: seq<Location>, hs: seq<nat>, c: string): seq<nat>
    decreases |hs|
  {
    if hs == [] then []
    else
      var h := hs[|hs| - 1];
      AtCoord(locs, hs[..|hs| - 1], c) + if h < |locs| && locs[h].coordinate == c then [h] else []
  }

  /** Locations that keep their coordinates sort the same way. */
  lemma {:induction false} AtCoordSame(locs: seq<Location>, locs2: seq<Location>, hs: seq<nat>, c: string)
    requires forall k :: 0 <= k < |hs| ==> hs[k] < |locs| <= |locs2| && locs2[hs[k]].coordinate == locs[hs[k]].coordinate
    ensures AtCoord(locs2, hs, c) == AtCoord(locs, hs, c)
    decreases |hs|
  {
    if hs != [] {
      var front := hs[..|hs| - 1];
      forall k | 0 <= k < |front|
        ensures front[k] < |locs| <= |locs2| && locs2[front[k]].coordinate == locs[front[k]].coordinate
      {
        assert front[k] == hs[k];
      }
      AtCoordSame(locs, locs2, front, c);
    }
  }

  // ---- the loop invariant ----

  /** Every new state is either still pending or placed, once. */
  ghost predicate Split(P: seq<nat>, Pend: seq<nat>, Placed: seq<nat>) {
    NoDup(P) && NoDup(Pend) && multiset(Pend) + multiset(Placed) == multiset(P)
  }

  /** The pending states have no location yet. */
  ghost predicate Pending(sp: Space, Pend: seq<nat>) {
    forall x :: x in Pend ==> x in sp.V && sp.V[x].kind.State? && sp.V[x].kind.location.None?
  }

  /** A placed state is located at one of the step's locations, which lists
      it. */
  ghost predicate PlacedIn(sp: Space, Placed: seq<nat>) {
    forall x :: x in Placed ==>
      x in sp.V && sp.V[x].kind.State? && sp.V[x].kind.location.Some? &&
      sp.V[x].kind.location.value in sp.T && sp.V[x].kind.location.value < |sp.locs| &&
      x in sp.locs[sp.V[x].kind.location.value].states
  }

  /** Each of the step's locations lists placed states only, each located
      there, and at least one. */
  ghost predicate Filled(sp: Space, Placed: seq<nat>) {
    forall h :: h in sp.T ==>
      h < |sp.locs| && sp.locs[h].states != [] &&
      forall x :: x in sp.locs[h].states ==>
        x in Placed && x in sp.V && sp.V[x].kind.State? && sp.V[x].kind.location == Some(h)
  }

  /** A location keeps its states, coordinate and parents. */
  predicate SameClass(a: Location, b: Location) {
    b.states == a.states && b.coordinate == a.coordinate && b.parents == a.parents
  }

  /** The step's locations take the next handles in order; the older ones
      change their children only. */
  ghost predicate Handled(sp0: Space, sp: Space) {
    |sp.locs| >= |sp0.locs| && sp.T == Ids(|sp0.locs|, |sp.locs| - |sp0.locs|) &&
    (forall h :: 0 <= h < |sp0.locs| ==> SameClass(sp0.locs[h], sp.locs[h])) &&
    HandlesBelow(sp.V, |sp.locs|)
  }

  /** Each of the step's locations is appended to the list of its
      coordinate, in order. */
  ghost predicate Spaced(sp0: Space, sp: Space) {
    (forall c :: c in sp.S <==> c in sp0.S || AtCoord(sp.locs, sp.T, c) != []) &&
    forall c :: c in sp.S ==> sp.S[c] == Get(sp0.S, c) + AtCoord(sp.locs, sp.T, c)
  }

  /** The new cliques take the ids after the counter's start, in order; no
      other vertex is added, and no parent id is above its child's. */
  ghost predicate Counted(sp0: Space, sp: Space) {
    Below(sp.V) && sp.id >= sp0.id &&
    (forall x :: x in sp.V <==> x in sp0.V || sp0.id < x <= sp.id) &&
    (forall x :: x in sp.V ==> x <= sp.id) &&
    sp.cls == Ids(sp0.id + 1, sp.id - sp0.id) &&
    forall j :: sp0.id < j <= sp.id ==> sp.V[j].level == 0 && sp.V[j].kind.Clique?
  }

  /** Older vertices keep their level and parents, and all but the placed
      states their kind. */
  ghost predicate Unmoved(sp0: Space, sp: Space, Placed: seq<nat>) {
    forall x :: x in sp0.V ==>
      x in sp.V && sp.V[x].level == sp0.V[x].level && sp.V[x].parents == sp0.V[x].parents &&
      (x !in Placed ==> sp.V[x].kind == sp0.V[x].kind)
  }

  ghost predicate Placing(P: seq<nat>, sp0: Space, sp: Space, Pend: seq<nat>, Placed: seq<nat>) {
    Split(P, Pend, Placed) && Pending(sp, Pend) && PlacedIn(sp, Placed) && Filled(sp, Placed) &&
    Handled(sp0, sp) && Spaced(sp0, sp) && Counted(sp0, sp) && Unmoved(sp0, sp, Placed) && MemoFromOne(sp.memo) &&
    |sp.cls| >= |sp.T|
  }

  /** What the loop needs of its start: new states without a location, and
      nothing yet placed. */
  ghost predicate Ready(P: seq<nat>, sp0: Space) {
    NoDup(P) && Pending(sp0, P) && sp0.T == [] && sp0.cls == [] &&
    Below(sp0.V) && (forall x :: x in sp0.V ==> x <= sp0.id) &&
    HandlesBelow(sp0.V, |sp0.locs|) && MemoFromOne(sp0.memo)
  }

  lemma PlacingStart(P: seq<nat>, sp0: Space)
    requires Ready(P, sp0)
    ensures Placing(P, sp0, sp0, P, [])
  {
    assert Ids(|sp0.locs|, 0) == [];
    assert Ids(sp0.id + 1, 0) == [];
  }

  /** What a round of the loop hands over, besides the new space `r`. */
  ghost predicate Round(sp: Space, G: seq<nat>, ls: seq<nat>, sorted: seq<nat>, coord: string,
                        MC: seq<seq<nat>>, ps: seq<nat>, r: Space) {
    var h := |sp.locs|;
    G != [] && multiset(sorted) == multiset(G) && sorted != [] &&
    (forall c :: c in ls ==> c < h) &&
    MC != [] && (forall j :: 0 <= j < |MC| ==> MC[j] != [] && forall v :: v in MC[j] ==> v in G) &&
    Effect(sp.V, G, h, sp.id, MC, ps, r.V) &&
    LocsEffect(sp.locs, ls, Location(sorted, coord, ls, []), r.locs) &&
    r.S == Enter(sp.S, coord, h) && r.T == sp.T + [h] &&
    r.cls == sp.cls + Ids(sp.id + 1, |MC|) && r.id == sp.id + |MC| && MemoFromOne(r.memo)
  }

  /** A round moves its group from the pending states to the placed ones and
      keeps the invariant. */
  lemma PlacingStep(P: seq<nat>, sp0: Space, sp: Space, Pend: seq<nat>, Placed: seq<nat>,
                    G: seq<nat>, rest: seq<nat>, ls: seq<nat>, sorted: seq<nat>, coord: string,
                    MC: seq<seq<nat>>, ps: seq<nat>, r: Space)
    requires Placing(P, sp0, sp, Pend, Placed)
    requires multiset(G) + multiset(rest) == multiset(Pend)
    requires Round(sp, G, ls, sorted, coord, MC, ps, r)
    ensures Placing(P, sp0, r, rest, Placed + G)
  {
    SplitStep(P, Pend, Placed, G, rest);
    PendingStep(sp, Pend, G, rest, ls, sorted, coord, MC, ps, r);
    PlacedStep(sp, Pend, Placed, G, ls, sorted, coord, MC, ps, r);
    FilledStep(sp, Pend, Placed, G, ls, sorted, coord, MC, ps, r);
    HandledStep(sp0, sp, G, ls, sorted, coord, MC, ps, r);
    SpacedStep(sp0, sp, G, ls, sorted, coord, MC, ps, r);
    CountedStep(sp0, sp, Pend, G, ls, sorted, coord, MC, ps, r);
    UnmovedStep(sp0, sp, Placed, G, ls, sorted, coord, MC, ps, r);
    assert |r.cls| >= |r.T|;
  }

  lemma SplitStep(P: seq<nat>, Pend: seq<nat>, Placed: seq<nat>, G: seq<nat>, rest: seq<nat>)
    requires Split(P, Pend, Placed) && multiset(G) + multiset(rest) == multiset(Pend)
    ensures Split(P, rest, Placed + G) && NoDup(G)
    ensures forall x :: x in G ==> x in Pend && x !in rest && x !in Placed
    ensures forall x :: x in rest ==> x in Pend && x !in G
  {
    NoDupCounts(P);
    forall x ensures multiset(G)[x] + multiset(rest)[x] + multiset(Placed)[x] <= 1 {
      assert multiset(P)[x] == multiset(Pend)[x] + multiset(Placed)[x];
      assert multiset(Pend)[x] == multiset(G)[x] + multiset(rest)[x];
    }
    forall x | x in multiset(rest) ensures multiset(rest)[x] <= 1 {
    }
    CountsNoDup(rest);
    forall x | x in multiset(G) ensures multiset(G)[x] <= 1 {
    }
    CountsNoDup(G);
    forall x | x in G ensures x in Pend && x !in rest && x !in Placed {
      assert x in multiset(G);
      assert multiset(Pend)[x] == multiset(G)[x] + multiset(rest)[x];
    }
    forall x | x in rest ensures x in Pend && x !in G {
      assert x in multiset(rest);
      assert multiset(Pend)[x] == multiset(G)[x] + multiset(rest)[x];
    }
    assert multiset(Placed + G) == multiset(Placed) + multiset(G);
  }

  lemma PendingStep(sp: Space, Pend: seq<nat>, G: seq<nat>, rest: seq<nat>, ls: seq<nat>, sorted: seq<nat>,
                    coord: string, MC: seq<seq<nat>>, ps: seq<nat>, r: Space)
    requires Pending(sp, Pend) && Round(sp, G, ls, sorted, coord, MC, ps, r)
    requires forall x :: x in rest ==> x in Pend && x !in G
    ensures Pending(r, rest)
  {
  }

  lemma PlacedStep(sp: Space, Pend: seq<nat>, Placed: seq<nat>, G: seq<nat>, ls: seq<nat>, sorted: seq<nat>,
                   coord: string, MC: seq<seq<nat>>, ps: seq<nat>, r: Space)
    requires Pending(sp, Pend) && PlacedIn(sp, Placed) && Round(sp, G, ls, sorted, coord, MC, ps, r)
    requires forall x :: x in G ==> x in Pend && x !in Placed
    ensures PlacedIn(r, Placed + G)
  {
    var h := |sp.locs|;
    forall x | x in Placed + G
      ensures x in r.V && r.V[x].kind.State? && r.V[x].kind.location.Some? &&
        r.V[x].kind.location.value in r.T && r.V[x].kind.location.value < |r.locs| &&
        x in r.locs[r.V[x].kind.location.value].states
    {
      if x in G {
        assert x in multiset(sorted);
        assert r.V[x].kind.location == Some(h);
      } else {
        var k := sp.V[x].kind.location.value;
        assert r.V[x].kind == sp.V[x].kind;
        assert r.locs[k].states == sp.locs[k].states;
      }
    }
  }

  lemma FilledStep(sp: Space, Pend: seq<nat>, Placed: seq<nat>, G: seq<nat>, ls: seq<nat>, sorted: seq<nat>,
                   coord: string, MC: seq<seq<nat>>, ps: seq<nat>, r: Space)
    requires Pending(sp, Pend) && Filled(sp, Placed) && Round(sp, G, ls, sorted, coord, MC, ps, r)
    requires forall x :: x in G ==> x in Pend && x !in Placed
    ensures Filled(r, Placed + G)
  {
    var h := |sp.locs|;
    forall k | k in r.T
      ensures k < |r.locs| && r.locs[k].states != [] &&
        forall x :: x in r.locs[k].states ==>
          x in Placed + G && x in r.V && r.V[x].kind.State? && r.V[x].kind.location == Some(k)
    {
      if k == h {
        forall x | x in r.locs[k].states
          ensures x in Placed + G && x in r.V && r.V[x].kind.State? && r.V[x].kind.location == Some(k)
        {
          assert x in multiset(G);
        }
      } else {
        assert k in sp.T;
        assert r.locs[k].states == sp.locs[k].states;
      }
    }
  }

  lemma HandledStep(sp0: Space, sp: Space, G: seq<nat>, ls: seq<nat>, sorted: seq<nat>,
                    coord: string, MC: seq<seq<nat>>, ps: seq<nat>, r: Space)
    requires Handled(sp0, sp) && Round(sp, G, ls, sorted, coord, MC, ps, r)
    ensures Handled(sp0, r)
  {
    var h := |sp.locs|;
    assert r.T == Ids(|sp0.locs|, |r.locs| - |sp0.locs|);
    forall x | x in r.V
      ensures r.V[x].kind.State? && r.V[x].kind.location.Some? ==> r.V[x].kind.location.value < |r.locs|
    {
      if x in sp.V && x !in G {
        assert r.V[x].kind == sp.V[x].kind;
      } else if x in sp.V {
        assert r.V[x].kind == Located(sp.V[x].kind, h);
      } else {
        var j := x - sp.id - 1;
        assert Effect(sp.V, G, h, sp.id, MC, ps, r.V);
        assert 0 <= j < |MC| && r.V[sp.id + 1 + j] == Vertex(0, MC[j], [], Clique(ps[j]));
      }
    }
  }

  /** Adding location `h` with coordinate `coord` to the step's list adds
      it to that coordinate's list only. */
  lemma {:induction false} AtCoordSnoc(locs: seq<Location>, locs2: seq<Location>, T: seq<nat>, coord: string)
    requires |locs2| == |locs| + 1 && locs2[|locs|].coordinate == coord
    requires forall k :: 0 <= k < |T| ==> T[k] < |locs| && locs2[T[k]].coordinate == locs[T[k]].coordinate
    ensures forall c :: AtCoord(locs2, T + [|locs|], c) == AtCoord(locs, T, c) + if c == coord then [|locs|] else []
  {
    forall c ensures AtCoord(locs2, T + [|locs|], c) == AtCoord(locs, T, c) + if c == coord then [|locs|] else [] {
      assert (T + [|locs|])[..|T|] == T;
      AtCoordSame(locs, locs2, T, c);
    }
  }

  lemma SpacedStep(sp0: Space, sp: Space, G: seq<nat>, ls: seq<nat>, sorted: seq<nat>,
                   coord: string, MC: seq<seq<nat>>, ps: seq<nat>, r: Space)
    requires Spaced(sp0, sp) && Handled(sp0, sp) && Round(sp, G, ls, sorted, coord, MC, ps, r)
    ensures Spaced(sp0, r)
  {
    var h := |sp.locs|;
    assert forall k :: 0 <= k < |sp.T| ==> sp.T[k] < h && r.locs[sp.T[k]].coordinate == sp.locs[sp.T[k]].coordinate;
    AtCoordSnoc(sp.locs, r.locs, sp.T, coord);
    SpacedKeys(sp0, sp, coord, h, r);
  }

  lemma SpacedKeys(sp0: Space, sp: Space, coord: string, h: nat, r: Space)
    requires Spaced(sp0, sp) && r.S == Enter(sp.S, coord, h)
    requires forall c :: AtCoord(r.locs, r.T, c) == AtCoord(sp.locs, sp.T, c) + if c == coord then [h] else []
    ensures Spaced(sp0, r)
  {
    forall c ensures (c in r.S <==> c in sp0.S || AtCoord(r.locs, r.T, c) != []) &&
                     (c in r.S ==> r.S[c] == Get(sp0.S, c) + AtCoord(r.locs, r.T, c)) {
      SpacedAt(sp0.S, sp.S, r.S, AtCoord(sp.locs, sp.T, c), AtCoord(r.locs, r.T, c), coord, h, c);
    }
  }

  /** `SpacedKeys` for one coordinate. */
  lemma SpacedAt(S0: map<string, seq<nat>>, S: map<string, seq<nat>>, S': map<string, seq<nat>>,
                 A: seq<nat>, A': seq<nat>, coord: string, h: nat, c: string)
    requires (c in S <==> c in S0 || A != []) && (c in S ==> S[c] == Get(S0, c) + A)
    requires S' == Enter(S, coord, h) && A' == A + if c == coord then [h] else []
    ensures c in S' <==> c in S0 || A' != []
    ensures c in S' ==> S'[c] == Get(S0, c) + A'
  {
    if c == coord && c !in S {
      assert A == [];
    }
  }

  lemma CountedStep(sp0: Space, sp: Space, Pend: seq<nat>, G: seq<nat>, ls: seq<nat>, sorted: seq<nat>,
                    coord: string, MC: seq<seq<nat>>, ps: seq<nat>, r: Space)
    requires Counted(sp0, sp) && Pending(sp, Pend) && Round(sp, G, ls, sorted, coord, MC, ps, r)
    requires forall x :: x in G ==> x in Pend
    ensures Counted(sp0, r)
  {
    forall x, k | x in r.V && 0 <= k < |r.V[x].parents| ensures r.V[x].parents[k] < x {
      if x !in sp.V {
        var j := x - sp.id - 1;
        assert r.V[x].parents == MC[j];
        assert MC[j][k] in G;
      }
    }
    assert r.cls == Ids(sp0.id + 1, r.id - sp0.id);
    forall j | sp0.id < j <= r.id ensures r.V[j].level == 0 && r.V[j].kind.Clique? {
      if j <= sp.id {
        assert j in sp.V && sp.V[j].kind.Clique?;
        assert r.V[j].kind == sp.V[j].kind;
      } else {
        assert r.V[j] == Vertex(0, MC[j - sp.id - 1], [], Clique(ps[j - sp.id - 1]));
      }
    }
  }

  lemma UnmovedStep(sp0: Space, sp: Space, Placed: seq<nat>, G: seq<nat>, ls: seq<nat>, sorted: seq<nat>,
                    coord: string, MC: seq<seq<nat>>, ps: seq<nat>, r: Space)
    requires Unmoved(sp0, sp, Placed) && Round(sp, G, ls, sorted, coord, MC, ps, r)
    ensures Unmoved(sp0, r, Placed + G)
  {
  }

  /** Once nothing is pending, the placed states are the new states. */
  lemma PlacingDone(P: seq<nat>, sp0: Space, sp: Space, Placed: seq<nat>)
    requires Placing(P, sp0, sp, [], Placed)
    ensures Placing(P, sp0, sp, [], P)
  {
    assert multiset(Placed) == multiset(P);
    assert forall x :: x in Placed <==> x in P by {
      forall x ensures x in Placed <==> x in P {
        assert x in Placed <==> x in multiset(Placed);
        assert x in P <==> x in multiset(P);
      }
    }
  }
}
