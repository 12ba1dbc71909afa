/** `findCliques` of `lib/wwmodel.js` as one method over values: label the
    step's operations and states, search each coordinate group for its
    maximal spacelike cliques, take each location's census and label the
    cliques and locations. The search may be abandoned between two groups
    when the job is aborted. */
module EngineFind {
  import opened SeqUtil
  import opened CausalGraph
  import opened Layout
  import opened EngineCore
  import opened EngineCliques
  import opened EngineStep

  /** What the engines hand to `findCliques`: a dense arena whose parents
      come first, operations whose parents are already labelled and states
      whose parent operation is one of the step's. */
  ghost predicate StepInput(V0: Arena, id0: nat, ops: seq<seq<nat>>, sts: seq<NewState>) {
    Dense(V0, id0) && Below(V0) &&
    (forall k, p :: 0 <= k < |ops| && p in ops[k] ==> p <= id0) &&
    (forall t :: 0 <= t < |sts| ==> sts[t].op < |ops|)
  }

  /** `S` is `V0` with the operations labelled after `id0` and the states
      after them; `G` groups the states by coordinate. */
  ghost predicate Layered(V0: Arena, id0: nat, ops: seq<seq<nat>>, sts: seq<NewState>, looks: Looks, S: Arena, G: seq<Group>) {
    S == WithStates(Appended(V0, id0, OpVertices(ops)), id0, id0 + |ops|, sts, looks.show) &&
    G == Grouped(StateCoords(sts, looks.coord), id0 + |ops|)
  }

  /** The operation and state loops of `findCliques`. */
  method LabelLayer(V0: Arena, id0: nat, ops: seq<seq<nat>>, sts: seq<NewState>, looks: Looks)
    returns (S: Arena, opMax: nat, stateMax: nat, G: seq<Group>)
    ensures Layered(V0, id0, ops, sts, looks, S, G)
    ensures opMax == id0 + |ops| && stateMax == opMax + |sts|
  {
    var V1;
    V1, opMax := Store(V0, id0, OpVertices(ops));
    S, stateMax, G := LabelStates(V1, opMax, id0, sts, looks);
  }

  /** The operation and state loops with what the clique search needs of
      their result. */
  method Layer(V0: Arena, id0: nat, ops: seq<seq<nat>>, sts: seq<NewState>, looks: Looks)
    returns (S: Arena, opMax: nat, stateMax: nat, G: seq<Group>)
    requires StepInput(V0, id0, ops, sts)
    ensures Layered(V0, id0, ops, sts, looks, S, G)
    ensures opMax == id0 + |ops| && stateMax == opMax + |sts|
    ensures Dense(S, stateMax) && Below(S) && ParentsBelow(Project(S))
    ensures forall i :: i in V0 ==> i in S && S[i] == V0[i]
    ensures GroupsIn(G, S, opMax, stateMax) && GroupsDistinct(G)
  {
    S, opMax, stateMax, G := LabelLayer(V0, id0, ops, sts, looks);
    LayerShape(V0, id0, ops, sts, looks, S, G);
    LayerKept(V0, id0, ops, sts, looks, S, G);
    GroupFacts(StateCoords(sts, looks.coord), opMax, G, S, stateMax);
    ProjectBelow(S);
  }

  /** Every grouped state is a vertex of `S` with an id in `lo+1..hi`. */
  ghost predicate GroupsIn(G: seq<Group>, S: Arena, lo: nat, hi: nat) {
    (forall g, x :: 0 <= g < |G| && x in G[g].states ==> lo < x <= hi) &&
    (forall g, x :: 0 <= g < |G| && x in G[g].states ==> x in S)
  }

  /** No group lists a state twice. */
  ghost predicate GroupsDistinct(G: seq<Group>) {
    forall g :: 0 <= g < |G| ==> NoDup(G[g].states)
  }

  /** The labelled layer is dense and keeps parents below children. */
  lemma LayerShape(V0: Arena, id0: nat, ops: seq<seq<nat>>, sts: seq<NewState>, looks: Looks, S: Arena, G: seq<Group>)
    requires StepInput(V0, id0, ops, sts) && Layered(V0, id0, ops, sts, looks, S, G)
    ensures Dense(S, id0 + |ops| + |sts|) && Below(S)
  {
    var V1 := Appended(V0, id0, OpVertices(ops));
    LayerOps(V0, id0, ops, V1);
    WithStatesDense(V1, id0, id0 + |ops|, sts, looks.show);
    WithStatesBelow(V1, id0, id0 + |ops|, sts, looks.show);
  }

  lemma LayerOps(V0: Arena, id0: nat, ops: seq<seq<nat>>, V1: Arena)
    requires Dense(V0, id0) && Below(V0) && forall k, p :: 0 <= k < |ops| && p in ops[k] ==> p <= id0
    requires V1 == Appended(V0, id0, OpVertices(ops))
    ensures Dense(V1, id0 + |ops|) && Below(V1) && forall i :: i in V1 ==> i <= id0 + |ops|
  {
    AppendedDense(V0, id0, OpVertices(ops));
    AppendedBelow(V0, id0, OpVertices(ops));
  }

  /** The grouped states are the new states, which are all in the arena. */
  lemma GroupsInRange(G: seq<Group>, coords: seq<int>, base: nat, S: Arena, top: nat)
    requires Members(G, coords, base) && Dense(S, top) && base + |coords| <= top
    ensures forall g, x :: 0 <= g < |G| && x in G[g].states ==> base < x <= base + |coords|
    ensures forall g, x :: 0 <= g < |G| && x in G[g].states ==> x in S
  {
  }

  /** What the clique search needs of the groups. */
  lemma GroupFacts(coords: seq<int>, base: nat, G: seq<Group>, S: Arena, top: nat)
    requires G == Grouped(coords, base) && Dense(S, top) && top == base + |coords|
    ensures GroupsIn(G, S, base, top) && GroupsDistinct(G)
  {
    GroupedMembers(coords, base);
    GroupsInRange(G, coords, base, S, top);
    GroupedIncreasing(coords, base);
    GroupStatesDistinct(G);
  }

  /** Every group's states are distinct, as the clique search needs. */
  lemma GroupStatesDistinct(G: seq<Group>)
    requires Increasing(G)
    ensures GroupsDistinct(G)
  {
    forall g, a, b | 0 <= g < |G| && 0 <= a < b < |G[g].states| ensures G[g].states[a] != G[g].states[b] {
    }
  }

  /** `MC[g]` lists the maximal spacelike cliques of group `g`, for every
      group searched so far. */
  ghost predicate Searched(S: Arena, G: seq<Group>, MC: seq<seq<seq<nat>>>) {
    ParentsBelow(Project(S)) && |MC| <= |G| &&
    forall g :: 0 <= g < |MC| ==> ReportsMaximalSpacelike(Project(S), G[g].states, MC[g])
  }

  /** The group loop of `findCliques`: `BronKerbosch(states)` per group,
      and after the `i`-th group the progress report, which may find the job
      aborted (oracle `proceed(i)`) except after the last group, whose
      progress value is 1. */
  method CliqueSearch(S: Arena, G: seq<Group>, proceed: nat -> bool) returns (MC: seq<seq<seq<nat>>>, done: bool)
    requires ParentsBelow(Project(S)) && GroupsDistinct(G)
    ensures Searched(S, G, MC)
    ensures done <==> |MC| == |G|
    ensures !done ==> 0 < |MC| && !proceed(|MC|)
  {
    var graph := Project(S);
    MC := [];
    var i := 0;
    while i < |G|
      invariant i <= |G| && |MC| == i && Searched(S, G, MC)
    {
      var cl := SpacelikeBronKerbosch(graph, G[i].states);
      MC := MC + [cl];
      i := i + 1;
      if i < |G| && !proceed(i) {
        return MC, false;
      }
    }
    return MC, true;
  }

  /** The members of every reported clique are states of the layer. */
  lemma SearchedBelow(S: Arena, G: seq<Group>, MC: seq<seq<seq<nat>>>, opMax: nat, stateMax: nat)
    requires Searched(S, G, MC) && GroupsIn(G, S, opMax, stateMax)
    ensures CliquesBelow(MC, stateMax)
    ensures forall g, k, x :: 0 <= g < |MC| && 0 <= k < |MC[g]| && x in MC[g][k] ==> x in S
  {
    forall g, k, x | 0 <= g < |MC| && 0 <= k < |MC[g]| && x in MC[g][k] ensures x in G[g].states {
      assert ReportsMaximalSpacelike(Project(S), G[g].states, MC[g]);
      assert MaximalSpacelike(Project(S), Elems(G[g].states), Elems(MC[g][k]));
      assert x in Elems(MC[g][k]);
    }
  }

  /** `cen[g]` is the `stat` and `metric` of location `g`. */
  ghost predicate Censused(S: Arena, MC: seq<seq<seq<nat>>>, cen: seq<Census>) {
    |cen| == |MC| && forall g :: 0 <= g < |MC| ==> cen[g] == Census(Stat(S, MC[g]), Metric(S, MC[g]))
  }

  /** One complete step: `V` is `V0` with the step's operations, states,
      cliques and locations, laid out as `ids` says. */
  ghost predicate Stepped(V0: Arena, id0: nat, ops: seq<seq<nat>>, sts: seq<NewState>, looks: Looks,
                          S: Arena, G: seq<Group>, MC: seq<seq<seq<nat>>>, cen: seq<Census>, V: Arena, ids: Ids) {
    Layered(V0, id0, ops, sts, looks, S, G) &&
    ids.prevLoc == id0 && ids.oper == id0 + |ops| && ids.state == ids.oper + |sts| &&
    Censused(S, MC, cen) && Labelled(V, S, ids.state, ids.clique, G, MC, cen) &&
    ids.loc == ids.clique + |G|
  }

  /** `findCliques(d)`. On success (`ok`) the step is complete and its
      cliques are the maximal spacelike ones; when the job is aborted during
      the search, the cliques found so far are labelled, no location is, and
      no id tuple is produced. Either way the arena stays dense with parents
      below children, and every vertex labelled before keeps its content up
      to the `show` flag of the operations, which only new states set. */
  method FindCliques(V0: Arena, id0: nat, ops: seq<seq<nat>>, sts: seq<NewState>, looks: Looks, proceed: nat -> bool)
    returns (ok: bool, V: Arena, id: nat, ids: Ids, S: Arena, G: seq<Group>, MC: seq<seq<seq<nat>>>, cen: seq<Census>)
    requires StepInput(V0, id0, ops, sts)
    ensures Dense(V, id) && Below(V) && id0 + |ops| + |sts| <= id
    ensures forall i :: i in V0 ==> i in V && V[i] == V0[i]
    ensures Layered(V0, id0, ops, sts, looks, S, G) && Searched(S, G, MC)
    ensures Ordered(ids) && ids.prevLoc == id0 && ids.loc == id
    ensures ok ==> Stepped(V0, id0, ops, sts, looks, S, G, MC, cen, V, ids) && id == ids.loc && |MC| == |G|
    ensures !ok ==> |MC| < |G| && !proceed(|MC|)
  {
    var opMax, stateMax;
    S, opMax, stateMax, G := Layer(V0, id0, ops, sts, looks);
    var done;
    MC, done := CliqueSearch(S, G, proceed);
    SearchedBelow(S, G, MC, opMax, stateMax);
    if done {
      var cliqueMax;
      V, cliqueMax, id, cen := Conclude(S, stateMax, G, MC);
      ok, ids := true, Ids(id0, opMax, stateMax, cliqueMax, id);
    } else {
      V, id := Abandon(S, stateMax, MC);
      ok, ids, cen := false, Ids(id0, opMax, stateMax, id, id), [];
    }
  }

  /** The census and the labelling of the cliques and locations once every
      group is searched. */
  method Conclude(S: Arena, stateMax: nat, G: seq<Group>, MC: seq<seq<seq<nat>>>)
    returns (V: Arena, cliqueMax: nat, locMax: nat, cen: seq<Census>)
    requires Dense(S, stateMax) && Below(S) && CliquesBelow(MC, stateMax) && |MC| == |G|
    ensures Censused(S, MC, cen) && Labelled(V, S, stateMax, cliqueMax, G, MC, cen)
    ensures locMax == cliqueMax + |G| && stateMax <= locMax
    ensures Dense(V, locMax) && Below(V) && forall i :: i in S ==> i in V && V[i] == S[i]
  {
    cen := TakeCensus(S, MC);
    V, cliqueMax, locMax := LabelCliques(S, stateMax, G, MC, cen);
    LabelledDense(V, S, stateMax, cliqueMax, G, MC, cen);
    LabelledBelow(V, S, stateMax, cliqueMax, G, MC, cen);
    forall i | i in S ensures i in V && V[i] == S[i] {
      LabelledOld(V, S, stateMax, cliqueMax, G, MC, cen, i);
    }
  }

  /** An aborted search: the cliques of the groups searched so far are
      labelled, with the ids of the locations they would have had. */
  method Abandon(S: Arena, stateMax: nat, MC: seq<seq<seq<nat>>>) returns (V: Arena, id: nat)
    requires Dense(S, stateMax) && Below(S) && CliquesBelow(MC, stateMax)
    ensures V == Appended(S, stateMax, CliqueVertices(S, MC, stateMax + |Concat(MC)|))
    ensures id == stateMax + |Concat(MC)|
    ensures Dense(V, id) && Below(V) && forall i :: i in S ==> i in V && V[i] == S[i]
  {
    var cv := CliqueVertices(S, MC, stateMax + |Concat(MC)|);
    CliqueVerticesLength(S, MC, stateMax + |Concat(MC)|);
    V, id := Store(S, stateMax, cv);
    AppendedDense(S, stateMax, cv);
    CliqueParentsBelow(S, MC, stateMax + |Concat(MC)|, stateMax, cv);
    AppendedBelow(S, stateMax, cv);
    forall i | i in S ensures i in V && V[i] == S[i] {
      AppendedOld(S, stateMax, cv, i);
    }
  }

  lemma LayerKept(V0: Arena, id0: nat, ops: seq<seq<nat>>, sts: seq<NewState>, looks: Looks, S: Arena, G: seq<Group>)
    requires StepInput(V0, id0, ops, sts) && Layered(V0, id0, ops, sts, looks, S, G)
    ensures forall i :: i in V0 ==> i in S && S[i] == V0[i]
  {
    forall i | i in V0 ensures i in S && S[i] == V0[i] {
      LayerOld(V0, id0, ops, sts, looks, S, G, i);
    }
  }

  /** The vertices labelled before the step are left as they were: a new
      state only marks its own, new, operation shown. */
  lemma LayerOld(V0: Arena, id0: nat, ops: seq<seq<nat>>, sts: seq<NewState>, looks: Looks, S: Arena, G: seq<Group>, i: nat)
    requires StepInput(V0, id0, ops, sts) && Layered(V0, id0, ops, sts, looks, S, G) && i in V0
    ensures i in S && S[i] == V0[i]
  {
    var V1 := Appended(V0, id0, OpVertices(ops));
    assert i <= id0;
    AppendedOld(V0, id0, OpVertices(ops), i);
    WithStatesOld(V1, id0, id0 + |ops|, sts, looks.show, i);
  }

  /** Operation `k` of the step gets the id `id0+k+1` and its parents, and
      is shown exactly when one of its states is. */
  lemma LayerOp(V0: Arena, id0: nat, ops: seq<seq<nat>>, sts: seq<NewState>, looks: Looks, S: Arena, G: seq<Group>, k: nat)
    requires StepInput(V0, id0, ops, sts) && Layered(V0, id0, ops, sts, looks, S, G) && k < |ops|
    ensures id0 + k + 1 in S && S[id0 + k + 1].parents == ops[k] && S[id0 + k + 1].kind == Operation
    ensures S[id0 + k + 1].show <==> exists j :: 0 <= j < |sts| && sts[j].op == k && looks.show(sts[j].state)
  {
    var V1 := Appended(V0, id0, OpVertices(ops));
    AppendedNew(V0, id0, OpVertices(ops), k);
    WithStatesOld(V1, id0, id0 + |ops|, sts, looks.show, id0 + k + 1);
    if ShownChild(id0, sts, looks.show, id0 + k + 1) {
      var j :| 0 <= j < |sts| && OpId(id0, sts[j]) == id0 + k + 1 && looks.show(sts[j].state);
      assert sts[j].op == k;
    }
    if exists j :: 0 <= j < |sts| && sts[j].op == k && looks.show(sts[j].state) {
      var j :| 0 <= j < |sts| && sts[j].op == k && looks.show(sts[j].state);
      assert OpId(id0, sts[j]) == id0 + k + 1;
    }
  }

  /** State `j` of the step gets the id `id0+|ops|+j+1`, its parent
      operation, the user's `show` of its value and its value. */
  lemma LayerState(V0: Arena, id0: nat, ops: seq<seq<nat>>, sts: seq<NewState>, looks: Looks, S: Arena, G: seq<Group>, j: nat)
    requires StepInput(V0, id0, ops, sts) && Layered(V0, id0, ops, sts, looks, S, G) && j < |sts|
    ensures var s := id0 + |ops| + j + 1;
      s in S && S[s] == Vertex([id0 + sts[j].op + 1], looks.show(sts[j].state), State(sts[j].state))
  {
    var V1 := Appended(V0, id0, OpVertices(ops));
    WithStatesNew(V1, id0, id0 + |ops|, sts, looks.show, j);
  }
}
