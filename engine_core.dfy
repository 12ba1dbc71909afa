/** The state both evolution engines share (`lib/wwmodel.js` and
    `server/model.mjs`): the vertex map `V`, the id counter and the steps'
    id tuples, together with the loops of `findCliques`, `filter`, `next`,
    `reconstruct` and `postReady` that the two files have in common, as
    methods over values that each engine's class calls on its fields.

    Vertices are objects in the source and point at their parents by
    reference; here a vertex lists its parents' ids, which is the same thing
    because every vertex in `V` sits under its own id. */
module EngineCore {
  import opened SeqUtil
  import opened CausalGraph
  import opened Layout

  /** What a vertex is: an operation, a state with its user value, a clique
      (the only kind with a `loc` property, which `isSpacelike` treats as a
      barrier) or a spacetime location. */
  datatype Kind =
    | Operation
    | State(state: int)
    | Clique(loc: nat)
    | Location(coord: int, stat: seq<nat>, metric: seq<nat>)

  /** A vertex: its parents' ids, its `show` flag and its kind. */
  datatype Vertex = Vertex(parents: seq<nat>, show: bool, kind: Kind)

  /** `V`: vertex id to vertex. */
  type Arena = map<nat, Vertex>

  /** The vertices as the ancestor search sees them. */
  function Project(V: Arena): (g: Graph)
    ensures g.Keys == V.Keys
    ensures forall i :: i in V ==> g[i] == Node(V[i].parents, V[i].kind.Clique?)
  {
    map i | i in V :: Node(V[i].parents, V[i].kind.Clique?)
  }

  /** Every parent id is below its child's id. */
  ghost predicate Below(V: Arena) {
    forall i, k :: i in V && 0 <= k < |V[i].parents| ==> V[i].parents[k] < i
  }

  lemma ProjectBelow(V: Arena)
    requires Below(V)
    ensures ParentsBelow(Project(V))
  {
  }

  /** The ids in use are exactly `1..id`. */
  ghost predicate Dense(V: Arena, id: nat) {
    forall i :: i in V <==> 1 <= i <= id
  }

  // ---- appending vertices ----

  /** `L.forEach(v => { v.id = ++id; V.set(id, v) })`: the vertices `vs`
      take the ids after `base` in order. */
  function Appended(V: Arena, base: nat, vs: seq<Vertex>): Arena
    decreases |vs|
  {
    if vs == [] then V
    else Appended(V, base, vs[..|vs| - 1])[base + |vs| := vs[|vs| - 1]]
  }

  lemma {:induction false} AppendedKeys(V: Arena, base: nat, vs: seq<Vertex>)
    ensures Appended(V, base, vs).Keys == V.Keys + IdRange(base + 1, base + |vs|)
    decreases |vs|
  {
    if vs != [] {
      AppendedKeys(V, base, vs[..|vs| - 1]);
    }
  }

  /** Vertex `k` of `vs` gets the id `base+k+1`. */
  lemma {:induction false} AppendedNew(V: Arena, base: nat, vs: seq<Vertex>, k: nat)
    requires k < |vs|
    ensures base + k + 1 in Appended(V, base, vs)
    ensures Appended(V, base, vs)[base + k + 1] == vs[k]
    decreases |vs|
  {
    var n := |vs|;
    if k < n - 1 {
      assert vs[..n - 1][k] == vs[k];
      AppendedNew(V, base, vs[..n - 1], k);
    }
  }

  /** The vertices up to `base` stay as they were. */
  lemma {:induction false} AppendedOld(V: Arena, base: nat, vs: seq<Vertex>, i: nat)
    requires i in V && i <= base
    ensures i in Appended(V, base, vs) && Appended(V, base, vs)[i] == V[i]
    decreases |vs|
  {
    if vs != [] {
      AppendedOld(V, base, vs[..|vs| - 1], i);
    }
  }

  /** Appending to a dense arena keeps it dense. */
  lemma AppendedDense(V: Arena, base: nat, vs: seq<Vertex>)
    requires Dense(V, base)
    ensures Dense(Appended(V, base, vs), base + |vs|)
  {
    AppendedKeys(V, base, vs);
  }

  /** Appending vertices whose parents come before them keeps parents below
      their children. */
  lemma AppendedBelow(V: Arena, base: nat, vs: seq<Vertex>)
    requires Below(V) && forall i :: i in V ==> i <= base
    requires forall k, p :: 0 <= k < |vs| && p in vs[k].parents ==> p <= base + k
    ensures Below(Appended(V, base, vs))
  {
    var W := Appended(V, base, vs);
    AppendedKeys(V, base, vs);
    forall i, k | i in W && 0 <= k < |W[i].parents| ensures W[i].parents[k] < i {
      if i in V {
        AppendedOld(V, base, vs, i);
      } else {
        AppendedNew(V, base, vs, i - base - 1);
        assert W[i].parents[k] in vs[i - base - 1].parents;
      }
    }
  }

  /** The labelling loop itself. */
  method Store(V0: Arena, id0: nat, vs: seq<Vertex>) returns (V: Arena, id: nat)
    ensures V == Appended(V0, id0, vs) && id == id0 + |vs|
  {
    V, id := V0, id0;
    for k := 0 to |vs|
      invariant V == Appended(V0, id0, vs[..k]) && id == id0 + k
    {
      assert vs[..k + 1][..k] == vs[..k];
      id := id + 1;
      V := V[id := vs[k]];
    }
    assert vs[..|vs|] == vs;
  }

  // ---- operations ----

  /** The operations of a step, given by their parent lists, before they
      have ids. */
  function OpVertices(ops: seq<seq<nat>>): (vs: seq<Vertex>)
    ensures |vs| == |ops|
    ensures forall k :: 0 <= k < |ops| ==> vs[k] == Vertex(ops[k], false, Operation)
  {
    seq(|ops|, k requires 0 <= k < |ops| => Vertex(ops[k], false, Operation))
  }

  // ---- states ----

  /** A state waiting for its id: its user value and the position of its
      parent operation in the step's operation list. */
  datatype NewState = NewState(state: int, op: nat)

  /** The user's `show` and `coord` callbacks. */
  datatype Looks = Looks(show: int -> bool, coord: int -> int)

  /** The id of the parent operation of `s`, when the step's operations
      start after `opBase`. */
  function OpId(opBase: nat, s: NewState): nat {
    opBase + s.op + 1
  }

  /** The state loop of `findCliques`: each state takes the next id, and a
      shown state marks its parent operation shown as well. The `op in V1`
      test never fails where the engines call it: the parent operation was
      labelled just before. */
  function WithStates(V: Arena, opBase: nat, base: nat, sts: seq<NewState>, show: int -> bool): Arena
    decreases |sts|
  {
    if sts == [] then V
    else
      var n := |sts|;
      var s := sts[n - 1];
      var V1 := WithStates(V, opBase, base, sts[..n - 1], show);
      var op := OpId(opBase, s);
      Mark(V1, op, show(s.state))[base + n := Vertex([op], show(s.state), State(s.state))]
  }

  /** `s.parent.forEach(x => x.show = true)` when the state `s` is shown. */
  function Mark(V: Arena, op: nat, shown: bool): (r: Arena)
    ensures r.Keys == V.Keys
  {
    if shown && op in V then V[op := V[op].(show := true)] else V
  }

  /** Some state of `sts` is shown and has `i` as its parent operation. */
  predicate ShownChild(opBase: nat, sts: seq<NewState>, show: int -> bool, i: nat) {
    exists j :: 0 <= j < |sts| && OpId(opBase, sts[j]) == i && show(sts[j].state)
  }

  lemma {:induction false} WithStatesKeys(V: Arena, opBase: nat, base: nat, sts: seq<NewState>, show: int -> bool)
    ensures WithStates(V, opBase, base, sts, show).Keys == V.Keys + IdRange(base + 1, base + |sts|)
    decreases |sts|
  {
    if sts != [] {
      WithStatesKeys(V, opBase, base, sts[..|sts| - 1], show);
    }
  }

  /** New state `j` gets the id `base+j+1`, its parent operation and its own
      `show`. */
  lemma {:induction false} WithStatesNew(V: Arena, opBase: nat, base: nat, sts: seq<NewState>, show: int -> bool, j: nat)
    requires j < |sts|
    requires forall t :: 0 <= t < |sts| ==> OpId(opBase, sts[t]) <= base
    ensures base + j + 1 in WithStates(V, opBase, base, sts, show)
    ensures WithStates(V, opBase, base, sts, show)[base + j + 1] ==
      Vertex([OpId(opBase, sts[j])], show(sts[j].state), State(sts[j].state))
    decreases |sts|
  {
    var n := |sts|;
    if j < n - 1 {
      var pre := sts[..n - 1];
      assert forall t :: 0 <= t < n - 1 ==> pre[t] == sts[t];
      WithStatesNew(V, opBase, base, pre, show, j);
    }
  }

  /** A vertex that was there keeps its parents and kind, and is shown
      exactly when it was or a shown new state is its child. */
  lemma {:induction false} WithStatesOld(V: Arena, opBase: nat, base: nat, sts: seq<NewState>, show: int -> bool, i: nat)
    requires i in V && i <= base
    ensures i in WithStates(V, opBase, base, sts, show)
    ensures var v := WithStates(V, opBase, base, sts, show)[i];
      v.parents == V[i].parents && v.kind == V[i].kind &&
      (v.show <==> V[i].show || ShownChild(opBase, sts, show, i))
    decreases |sts|
  {
    if sts != [] {
      var n := |sts|;
      var pre := sts[..n - 1];
      WithStatesOld(V, opBase, base, pre, show, i);
      assert forall t :: 0 <= t < n - 1 ==> pre[t] == sts[t];
      if ShownChild(opBase, sts, show, i) {
        var t :| 0 <= t < n && OpId(opBase, sts[t]) == i && show(sts[t].state);
        if t < n - 1 {
          assert OpId(opBase, pre[t]) == i && show(pre[t].state);
        }
      }
    }
  }

  /** Labelling the states keeps the arena dense. */
  lemma WithStatesDense(V: Arena, opBase: nat, base: nat, sts: seq<NewState>, show: int -> bool)
    requires Dense(V, base)
    ensures Dense(WithStates(V, opBase, base, sts, show), base + |sts|)
  {
    WithStatesKeys(V, opBase, base, sts, show);
  }

  /** A state's parent operation comes before it, so labelling the states
      keeps parents below their children. */
  lemma WithStatesBelow(V: Arena, opBase: nat, base: nat, sts: seq<NewState>, show: int -> bool)
    requires Below(V) && forall i :: i in V ==> i <= base
    requires forall t :: 0 <= t < |sts| ==> OpId(opBase, sts[t]) <= base
    ensures Below(WithStates(V, opBase, base, sts, show))
  {
    var W := WithStates(V, opBase, base, sts, show);
    WithStatesKeys(V, opBase, base, sts, show);
    forall i, k | i in W && 0 <= k < |W[i].parents| ensures W[i].parents[k] < i {
      if i in V {
        WithStatesOld(V, opBase, base, sts, show, i);
      } else {
        WithStatesNew(V, opBase, base, sts, show, i - base - 1);
      }
    }
  }

  // ---- grouping by coordinate ----

  /** An entry of the `G` map of `findCliques`: a coordinate and the ids of
      its states, in the order they were added. The map iterates in
      insertion order, which is the order of this sequence. */
  datatype Group = Group(coord: int, states: seq<nat>)

  /** The position of the group of `c`, or `|G|` when there is none. */
  function GroupIndex(G: seq<Group>, c: int): (k: nat)
    ensures k <= |G|
    ensures k < |G| ==> G[k].coord == c
    ensures forall j :: 0 <= j < k ==> G[j].coord != c
  {
    if G == [] then 0
    else if G[0].coord == c then 0
    else 1 + GroupIndex(G[1..], c)
  }

  /** `g = G.get(coord); if (g) g.push(s) else G.set(coord, [s])`. */
  function AddToGroups(G: seq<Group>, c: int, s: nat): seq<Group> {
    var k := GroupIndex(G, c);
    if k < |G| then G[k := Group(c, G[k].states + [s])] else G + [Group(c, [s])]
  }

  /** The groups of the states `base+1, base+2, …` whose coordinates are
      `coords`. */
  function Grouped(coords: seq<int>, base: nat): seq<Group>
    decreases |coords|
  {
    if coords == [] then []
    else AddToGroups(Grouped(coords[..|coords| - 1], base), coords[|coords| - 1], base + |coords|)
  }

  /** The coordinates of the new states. */
  function StateCoords(sts: seq<NewState>, coord: int -> int): (cs: seq<int>)
    ensures |cs| == |sts| && forall j :: 0 <= j < |sts| ==> cs[j] == coord(sts[j].state)
  {
    seq(|sts|, j requires 0 <= j < |sts| => coord(sts[j].state))
  }

  /** The grouping is the partition of the states by coordinate: one group
      per distinct coordinate, each state in the group of its coordinate,
      groups in the order their coordinates were first seen and each group's
      states in increasing id order. */
  ghost predicate Partition(G: seq<Group>, coords: seq<int>, base: nat) {
    DistinctCoords(G) && Covers(G, coords, base) && Members(G, coords, base) &&
    NonEmpty(G) && Increasing(G) && FirstSeen(G)
  }

  ghost predicate DistinctCoords(G: seq<Group>) {
    forall k, k' :: 0 <= k < k' < |G| ==> G[k].coord != G[k'].coord
  }

  /** State `base+j+1` is in the group of its coordinate. */
  ghost predicate Covers(G: seq<Group>, coords: seq<int>, base: nat) {
    forall j :: 0 <= j < |coords| ==>
      GroupIndex(G, coords[j]) < |G| && base + j + 1 in G[GroupIndex(G, coords[j])].states
  }

  /** A group holds only states whose coordinate is the group's. */
  ghost predicate Members(G: seq<Group>, coords: seq<int>, base: nat) {
    forall k, x :: 0 <= k < |G| && x in G[k].states ==>
      base < x <= base + |coords| && coords[x - base - 1] == G[k].coord
  }

  ghost predicate NonEmpty(G: seq<Group>) {
    forall k :: 0 <= k < |G| ==> G[k].states != []
  }

  ghost predicate Increasing(G: seq<Group>) {
    forall k, a, b :: 0 <= k < |G| && 0 <= a < b < |G[k].states| ==> G[k].states[a] < G[k].states[b]
  }

  ghost predicate FirstSeen(G: seq<Group>) {
    forall k, k' :: 0 <= k < k' < |G| && G[k].states != [] && G[k'].states != [] ==>
      G[k].states[0] < G[k'].states[0]
  }

  lemma GroupedPartition(coords: seq<int>, base: nat)
    ensures Partition(Grouped(coords, base), coords, base)
  {
    GroupedDistinct(coords, base);
    GroupedCovers(coords, base);
    GroupedMembers(coords, base);
    GroupedIncreasing(coords, base);
    GroupedFirstSeen(coords, base);
  }

  lemma {:induction false} GroupedDistinct(coords: seq<int>, base: nat)
    ensures DistinctCoords(Grouped(coords, base))
    decreases |coords|
  {
    if coords != [] {
      var n := |coords|;
      GroupedDistinct(coords[..n - 1], base);
      AddDistinct(Grouped(coords[..n - 1], base), coords[n - 1], base + n);
    }
  }

  lemma {:induction false} GroupedCovers(coords: seq<int>, base: nat)
    ensures Covers(Grouped(coords, base), coords, base)
    decreases |coords|
  {
    if coords != [] {
      var pre := coords[..|coords| - 1];
      GroupedCovers(pre, base);
      AddCovers(Grouped(pre, base), pre, coords, base);
    }
  }

  lemma {:induction false} GroupedMembers(coords: seq<int>, base: nat)
    ensures Members(Grouped(coords, base), coords, base)
    decreases |coords|
  {
    if coords != [] {
      var pre := coords[..|coords| - 1];
      GroupedMembers(pre, base);
      AddMembers(Grouped(pre, base), pre, coords, base);
    }
  }

  lemma {:induction false} GroupedIncreasing(coords: seq<int>, base: nat)
    ensures Increasing(Grouped(coords, base))
    decreases |coords|
  {
    if coords != [] {
      var n := |coords|;
      var pre := coords[..n - 1];
      GroupedIncreasing(pre, base);
      GroupedBound(pre, base, base + n);
      AddIncreasing(Grouped(pre, base), coords[n - 1], base + n);
    }
  }

  lemma {:induction false} GroupedFirstSeen(coords: seq<int>, base: nat)
    ensures FirstSeen(Grouped(coords, base)) && NonEmpty(Grouped(coords, base))
    decreases |coords|
  {
    if coords != [] {
      var n := |coords|;
      var pre := coords[..n - 1];
      var G := Grouped(pre, base);
      GroupedFirstSeen(pre, base);
      GroupedBound(pre, base, base + n);
      AddFirstSeen(G, coords[n - 1], base + n);
      assert Grouped(coords, base) == AddToGroups(G, coords[n - 1], base + n);
    }
  }

  /** The groups hold no id past the last state. */
  lemma GroupedBound(coords: seq<int>, base: nat, s: nat)
    requires s == base + |coords| + 1
    ensures forall k, x :: 0 <= k < |Grouped(coords, base)| && x in Grouped(coords, base)[k].states ==> x < s
  {
    GroupedMembers(coords, base);
    MembersBound(Grouped(coords, base), coords, base);
  }

  lemma MembersBound(G: seq<Group>, coords: seq<int>, base: nat)
    requires Members(G, coords, base)
    ensures forall k, x :: 0 <= k < |G| && x in G[k].states ==> x < base + |coords| + 1
  {
  }

  lemma AddDistinct(G: seq<Group>, c: int, s: nat)
    requires DistinctCoords(G)
    ensures DistinctCoords(AddToGroups(G, c, s))
  {
  }

  lemma AddCovers(G: seq<Group>, pre: seq<int>, coords: seq<int>, base: nat)
    requires coords != [] && pre == coords[..|coords| - 1]
    requires Covers(G, pre, base)
    ensures Covers(AddToGroups(G, coords[|coords| - 1], base + |coords|), coords, base)
  {
    var n := |coords|;
    var G2 := AddToGroups(G, coords[n - 1], base + n);
    forall j | 0 <= j < n
      ensures GroupIndex(G2, coords[j]) < |G2| && base + j + 1 in G2[GroupIndex(G2, coords[j])].states
    {
      AddCoversAt(G, pre, coords, base, j);
    }
  }

  lemma AddCoversAt(G: seq<Group>, pre: seq<int>, coords: seq<int>, base: nat, j: nat)
    requires coords != [] && pre == coords[..|coords| - 1] && j < |coords|
    requires Covers(G, pre, base)
    ensures var G2 := AddToGroups(G, coords[|coords| - 1], base + |coords|);
      GroupIndex(G2, coords[j]) < |G2| && base + j + 1 in G2[GroupIndex(G2, coords[j])].states
  {
    var prior := j < |coords| - 1;
    if prior {
      assert pre[j] == coords[j];
    }
    CoversStep(G, coords[|coords| - 1], base + |coords|, coords[j], base + j + 1, prior);
  }

  /** Adding state `s` keeps every earlier state in the group of its
      coordinate and puts `s` in the group of `c`. */
  lemma CoversStep(G: seq<Group>, c: int, s: nat, x: int, y: nat, prior: bool)
    requires prior ==> GroupIndex(G, x) < |G| && y in G[GroupIndex(G, x)].states
    requires !prior ==> x == c && y == s
    ensures var G2 := AddToGroups(G, c, s);
      GroupIndex(G2, x) < |G2| && y in G2[GroupIndex(G2, x)].states
  {
    var k := GroupIndex(G, c);
    if k < |G| {
      CoversExisting(G, c, s, k, x, y, prior);
    } else {
      CoversNew(G, c, s, x, y, prior);
    }
  }

  /** Appending to the group at `k` keeps every state where it was. */
  lemma CoversExisting(G: seq<Group>, c: int, s: nat, k: nat, x: int, y: nat, prior: bool)
    requires k == GroupIndex(G, c) && k < |G|
    requires prior ==> GroupIndex(G, x) < |G| && y in G[GroupIndex(G, x)].states
    requires !prior ==> x == c && y == s
    ensures var G2 := G[k := Group(c, G[k].states + [s])];
      GroupIndex(G2, x) < |G2| && y in G2[GroupIndex(G2, x)].states
  {
    var G2 := G[k := Group(c, G[k].states + [s])];
    SameCoordsSameIndex(G, G2, x);
  }

  /** Opening a new group at the end keeps every state where it was. */
  lemma CoversNew(G: seq<Group>, c: int, s: nat, x: int, y: nat, prior: bool)
    requires GroupIndex(G, c) == |G|
    requires prior ==> GroupIndex(G, x) < |G| && y in G[GroupIndex(G, x)].states
    requires !prior ==> x == c && y == s
    ensures var G2 := G + [Group(c, [s])];
      GroupIndex(G2, x) < |G2| && y in G2[GroupIndex(G2, x)].states
  {
    var G2 := G + [Group(c, [s])];
    assert G2[..|G|] == G;
    GroupIndexPrefix(G2, |G|, x);
    if !prior {
      assert G2[|G|] == Group(c, [s]);
    }
  }

  lemma AddMembers(G: seq<Group>, pre: seq<int>, coords: seq<int>, base: nat)
    requires coords != [] && pre == coords[..|coords| - 1]
    requires Members(G, pre, base)
    ensures Members(AddToGroups(G, coords[|coords| - 1], base + |coords|), coords, base)
  {
    var n := |coords|;
    var G2 := AddToGroups(G, coords[n - 1], base + n);
    forall k, x | 0 <= k < |G2| && x in G2[k].states
      ensures base < x <= base + n && coords[x - base - 1] == G2[k].coord
    {
      if x != base + n {
        assert k < |G| && x in G[k].states;
        assert pre[x - base - 1] == coords[x - base - 1];
      }
    }
  }

  lemma AddIncreasing(G: seq<Group>, c: int, s: nat)
    requires Increasing(G)
    requires forall k, x :: 0 <= k < |G| && x in G[k].states ==> x < s
    ensures Increasing(AddToGroups(G, c, s))
  {
    var G2 := AddToGroups(G, c, s);
    var k := GroupIndex(G, c);
    forall k', a, b | 0 <= k' < |G2| && 0 <= a < b < |G2[k'].states|
      ensures G2[k'].states[a] < G2[k'].states[b]
    {
      if k < |G| && k' == k && b == |G[k].states| {
        assert G2[k'].states[a] == G[k].states[a];
        assert G[k].states[a] in G[k].states;
      }
    }
  }

  lemma AddFirstSeen(G: seq<Group>, c: int, s: nat)
    requires FirstSeen(G) && NonEmpty(G)
    requires forall k, x :: 0 <= k < |G| && x in G[k].states ==> x < s
    ensures FirstSeen(AddToGroups(G, c, s)) && NonEmpty(AddToGroups(G, c, s))
  {
    if GroupIndex(G, c) == |G| {
      forall k | 0 <= k < |G| ensures G[k].states[0] < s {
        assert G[k].states[0] in G[k].states;
      }
    }
  }

  /** Two group lists with the same coordinates in the same places find a
      coordinate at the same position. */
  lemma {:induction false} SameCoordsSameIndex(G: seq<Group>, G2: seq<Group>, c: int)
    requires |G| == |G2| && forall k :: 0 <= k < |G| ==> G[k].coord == G2[k].coord
    ensures GroupIndex(G, c) == GroupIndex(G2, c)
  {
    if G != [] && G[0].coord != c {
      SameCoordsSameIndex(G[1..], G2[1..], c);
    }
  }

  /** A coordinate found in a prefix is found at the same position. */
  lemma {:induction false} GroupIndexPrefix(G: seq<Group>, m: nat, c: int)
    requires m <= |G|
    ensures GroupIndex(G[..m], c) < m ==> GroupIndex(G, c) == GroupIndex(G[..m], c)
    ensures GroupIndex(G[..m], c) == m ==> GroupIndex(G, c) >= m
  {
    if G != [] && m > 0 && G[0].coord != c {
      assert G[..m][1..] == G[1..][..m - 1];
      GroupIndexPrefix(G[1..], m - 1, c);
    }
  }

  lemma GroupedSnoc(cs: seq<int>, c: int, base: nat)
    ensures Grouped(cs + [c], base) == AddToGroups(Grouped(cs, base), c, base + |cs| + 1)
  {
    assert (cs + [c])[..|cs|] == cs;
  }

  lemma StateCoordsSnoc(sts: seq<NewState>, j: nat, coord: int -> int)
    requires j < |sts|
    ensures StateCoords(sts[..j + 1], coord) == StateCoords(sts[..j], coord) + [coord(sts[j].state)]
  {
    var a, b := StateCoords(sts[..j + 1], coord), StateCoords(sts[..j], coord) + [coord(sts[j].state)];
    assert |a| == |b|;
    forall t | 0 <= t < |a| ensures a[t] == b[t] {
      if t < j {
        assert sts[..j + 1][t] == sts[..j][t];
      }
    }
  }

  /** One more state unfolds the state loop once. */
  lemma WithStatesSnoc(V: Arena, opBase: nat, base: nat, sts: seq<NewState>, show: int -> bool, j: nat)
    requires j < |sts|
    ensures WithStates(V, opBase, base, sts[..j + 1], show) ==
      Mark(WithStates(V, opBase, base, sts[..j], show), OpId(opBase, sts[j]), show(sts[j].state))
        [base + j + 1 := Vertex([OpId(opBase, sts[j])], show(sts[j].state), State(sts[j].state))]
  {
    assert sts[..j + 1][..j] == sts[..j];
  }

  /** The state takes the next id and marks its parent operation shown when
      it is shown itself. */
  method StateTurn(ghost V0: Arena, opBase: nat, base: nat, sts: seq<NewState>, show: int -> bool, j: nat,
                   V1: Arena)
    returns (V: Arena)
    requires j < |sts| && V1 == WithStates(V0, opBase, base, sts[..j], show)
    ensures V == WithStates(V0, opBase, base, sts[..j + 1], show)
    ensures V.Keys == V1.Keys + {base + j + 1}
  {
    WithStatesSnoc(V0, opBase, base, sts, show, j);
    var s := sts[j];
    var op := OpId(opBase, s);
    V := V1;
    if show(s.state) && op in V {
      V := V[op := V[op].(show := true)];
    }
    V := V[base + j + 1 := Vertex([op], show(s.state), State(s.state))];
  }

  /** The state joins the group of its coordinate
      (`g = G.get(coord); if (g) g.push(s) else G.set(coord, [s])`). */
  method GroupTurn(base: nat, sts: seq<NewState>, coord: int -> int, j: nat, G1: seq<Group>)
    returns (G: seq<Group>)
    requires j < |sts| && G1 == Grouped(StateCoords(sts[..j], coord), base)
    ensures G == Grouped(StateCoords(sts[..j + 1], coord), base)
  {
    var c := coord(sts[j].state);
    StateCoordsSnoc(sts, j, coord);
    GroupedSnoc(StateCoords(sts[..j], coord), c, base);
    var k := GroupIndex(G1, c);
    if k < |G1| {
      G := G1[k := Group(c, G1[k].states + [base + j + 1])];
    } else {
      G := G1 + [Group(c, [base + j + 1])];
    }
  }

  /** The state loop of `findCliques`: label the states and group them by
      coordinate. */
  method LabelStates(V0: Arena, id0: nat, opBase: nat, sts: seq<NewState>, looks: Looks)
    returns (V: Arena, id: nat, G: seq<Group>)
    ensures V == WithStates(V0, opBase, id0, sts, looks.show) && id == id0 + |sts|
    ensures G == Grouped(StateCoords(sts, looks.coord), id0)
  {
    V, id, G := V0, id0, [];
    for j := 0 to |sts|
      invariant V == WithStates(V0, opBase, id0, sts[..j], looks.show) && id == id0 + j
      invariant G == Grouped(StateCoords(sts[..j], looks.coord), id0)
    {
      V := StateTurn(V0, opBase, id0, sts, looks.show, j, V);
      G := GroupTurn(id0, sts, looks.coord, j, G);
      id := id + 1;
    }
    assert sts[..|sts|] == sts;
  }
}
