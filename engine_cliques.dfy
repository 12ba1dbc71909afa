/** The second half of `findCliques`, the same in both engines: the maximal
    cliques of each coordinate group become clique vertices, and each group
    becomes a spacetime location over its cliques with its `stat` and
    `metric`. */
module EngineCliques {
  import opened SeqUtil
  import opened CausalGraph
  import opened EngineCore

  /** `clique.parent.some(x => x.show)`. */
  predicate AnyShown(S: Arena, c: seq<nat>) {
    exists x :: x in c && x in S && S[x].show
  }

  /** `l.parent.some(x => x.show)` for a location over the cliques `cl`. */
  predicate SomeShown(S: Arena, cl: seq<seq<nat>>) {
    exists k :: 0 <= k < |cl| && AnyShown(S, cl[k])
  }

  /** The clique vertices of one group, whose location has the id `loc`. */
  function GroupCliques(S: Arena, cl: seq<seq<nat>>, loc: nat): (vs: seq<Vertex>)
    ensures |vs| == |cl|
    ensures forall k :: 0 <= k < |cl| ==> vs[k] == Vertex(cl[k], AnyShown(S, cl[k]), Clique(loc))
  {
    seq(|cl|, k requires 0 <= k < |cl| => Vertex(cl[k], AnyShown(S, cl[k]), Clique(loc)))
  }

  /** The clique vertices of all groups, group after group; the location of
      group `g` will have the id `cliqueMax + g + 1`. */
  function CliqueVertices(S: Arena, MC: seq<seq<seq<nat>>>, cliqueMax: nat): seq<Vertex>
    decreases |MC|
  {
    if MC == [] then []
    else CliqueVertices(S, MC[..|MC| - 1], cliqueMax) + GroupCliques(S, MC[|MC| - 1], cliqueMax + |MC|)
  }

  /** The position of group `g`'s first clique among all cliques. */
  function Offset(MC: seq<seq<seq<nat>>>, g: nat): nat
    requires g <= |MC|
  {
    |Concat(MC[..g])|
  }

  /** The ids `b+1..b+n`, in order. */
  function IdSeq(b: nat, n: nat): (r: seq<nat>)
    ensures |r| == n && forall k :: 0 <= k < n ==> r[k] == b + k + 1
  {
    seq(n, k requires 0 <= k < n => b + k + 1)
  }

  lemma {:induction false} CliqueVerticesLength(S: Arena, MC: seq<seq<seq<nat>>>, cliqueMax: nat)
    ensures |CliqueVertices(S, MC, cliqueMax)| == |Concat(MC)|
    decreases |MC|
  {
    if MC != [] {
      CliqueVerticesLength(S, MC[..|MC| - 1], cliqueMax);
    }
  }

  /** Clique `k` of group `g` sits at `Offset(MC, g) + k` and points at the
      location of group `g`. */
  lemma {:induction false} CliqueVerticesAt(S: Arena, MC: seq<seq<seq<nat>>>, cliqueMax: nat, g: nat, k: nat)
    requires g < |MC| && k < |MC[g]|
    ensures Offset(MC, g) + k < |Concat(MC)| == |CliqueVertices(S, MC, cliqueMax)|
    ensures CliqueVertices(S, MC, cliqueMax)[Offset(MC, g) + k] ==
      Vertex(MC[g][k], AnyShown(S, MC[g][k]), Clique(cliqueMax + g + 1))
    decreases |MC|
  {
    var n := |MC|;
    var pre := MC[..n - 1];
    CliqueVerticesLength(S, pre, cliqueMax);
    CliqueVerticesLength(S, MC, cliqueMax);
    assert Concat(MC) == Concat(pre) + MC[n - 1];
    if g == n - 1 {
      assert MC[..g] == pre;
    } else {
      assert pre[..g] == MC[..g] && pre[g] == MC[g];
      CliqueVerticesAt(S, pre, cliqueMax, g, k);
    }
  }

  /** Every clique position belongs to some group. */
  lemma {:induction false} CliqueGroup(MC: seq<seq<seq<nat>>>, j: nat)
    requires j < |Concat(MC)|
    ensures exists g :: 0 <= g < |MC| && Offset(MC, g) <= j < Offset(MC, g) + |MC[g]|
    decreases |MC|
  {
    var n := |MC|;
    var pre := MC[..n - 1];
    assert Concat(MC) == Concat(pre) + MC[n - 1];
    if j < |Concat(pre)| {
      CliqueGroup(pre, j);
      var g :| 0 <= g < |pre| && Offset(pre, g) <= j < Offset(pre, g) + |pre[g]|;
      assert pre[..g] == MC[..g] && pre[g] == MC[g];
    } else {
      assert MC[..n - 1] == pre;
    }
  }

  /** The groups before `g` end where group `g` starts. */
  lemma OffsetStep(MC: seq<seq<seq<nat>>>, g: nat)
    requires g < |MC|
    ensures Offset(MC, g + 1) == Offset(MC, g) + |MC[g]|
    ensures Offset(MC, g + 1) <= |Concat(MC)|
  {
    assert MC[..g + 1][..g] == MC[..g];
    OffsetBound(MC, g + 1);
  }

  lemma {:induction false} OffsetBound(MC: seq<seq<seq<nat>>>, g: nat)
    requires g <= |MC|
    ensures Offset(MC, g) <= |Concat(MC)|
    decreases |MC|
  {
    if g < |MC| {
      var pre := MC[..|MC| - 1];
      assert pre[..g] == MC[..g];
      OffsetBound(pre, g);
    } else {
      assert MC[..g] == MC;
    }
  }

  // ---- stat and metric ----

  /** `xs.map(x => x.parent).flat()`: the parents of `xs`, list after list. */
  function FlatParents(S: Arena, xs: seq<nat>): seq<nat> {
    Concat(seq(|xs|, k requires 0 <= k < |xs| => if xs[k] in S then S[xs[k]].parents else []))
  }

  /** `p.map(x => x.loc.id)` over the cliques among `cs`. */
  function LocsOf(S: Arena, cs: seq<nat>): seq<nat> {
    Concat(seq(|cs|, k requires 0 <= k < |cs| =>
      if cs[k] in S && S[cs[k]].kind.Clique? then [S[cs[k]].kind.loc] else []))
  }

  /** The location's states, their operations and those operations' parent
      cliques, each without repetitions, as `findCliques` computes them. */
  function Lineage(S: Arena, cl: seq<seq<nat>>): (seq<nat>, seq<nat>, seq<nat>) {
    var states := Dedup(Concat(cl));
    var opers := Dedup(FlatParents(S, states));
    var prior := Dedup(FlatParents(S, opers));
    (states, opers, prior)
  }

  /** `loc.stat`: the counts of parent cliques, operations and states. */
  function Stat(S: Arena, cl: seq<seq<nat>>): seq<nat> {
    var (states, opers, prior) := Lineage(S, cl);
    [|prior|, |opers|, |states|]
  }

  /** `loc.metric`: the locations of the parent cliques, without
      repetitions. */
  function Metric(S: Arena, cl: seq<seq<nat>>): seq<nat> {
    Dedup(LocsOf(S, Lineage(S, cl).2))
  }

  /** The flattened parents are the parent set of the listed vertices. */
  lemma FlatParentsElems(S: Arena, xs: seq<nat>)
    ensures Elems(FlatParents(S, xs)) == Parents(Project(S), Elems(xs))
  {
    var lists := seq(|xs|, k requires 0 <= k < |xs| => if xs[k] in S then S[xs[k]].parents else []);
    var g := Project(S);
    forall p ensures p in FlatParents(S, xs) <==> p in Parents(g, Elems(xs)) {
      ConcatElems(lists, p);
      if p in Parents(g, Elems(xs)) {
        var x :| x in Elems(xs) && x in g && p in g[x].parents;
        var k :| 0 <= k < |xs| && xs[k] == x;
        assert p in lists[k];
      }
    }
  }

  /** The located cliques are the locations of the clique vertices among
      `cs`. */
  lemma LocsOfElems(S: Arena, cs: seq<nat>)
    ensures Elems(LocsOf(S, cs)) == set c | c in cs && c in S && S[c].kind.Clique? :: S[c].kind.loc
  {
    var lists := seq(|cs|, k requires 0 <= k < |cs| =>
      if cs[k] in S && S[cs[k]].kind.Clique? then [S[cs[k]].kind.loc] else []);
    forall l ensures l in LocsOf(S, cs) <==> exists c :: c in cs && c in S && S[c].kind.Clique? && S[c].kind.loc == l {
      ConcatElems(lists, l);
      if exists c :: c in cs && c in S && S[c].kind.Clique? && S[c].kind.loc == l {
        var c :| c in cs && c in S && S[c].kind.Clique? && S[c].kind.loc == l;
        var k :| 0 <= k < |cs| && cs[k] == c;
        assert l in lists[k];
      }
    }
  }

  /** `stat` counts the distinct states of the location's cliques, their
      distinct parents and their distinct grandparents. */
  lemma StatCounts(S: Arena, cl: seq<seq<nat>>)
    ensures var g := Project(S); var E := Elems(Concat(cl));
      Stat(S, cl) == [|Parents(g, Parents(g, E))|, |Parents(g, E)|, |E|]
  {
    var (states, opers, prior) := Lineage(S, cl);
    DedupFacts(Concat(cl));
    DedupLength(Concat(cl));
    FlatParentsElems(S, states);
    DedupLength(FlatParents(S, states));
    DedupFacts(FlatParents(S, states));
    FlatParentsElems(S, opers);
    DedupLength(FlatParents(S, opers));
  }

  /** `metric` lists each location of a grandparent clique once. */
  lemma MetricLocations(S: Arena, cl: seq<seq<nat>>)
    ensures var g := Project(S); var P := Parents(g, Parents(g, Elems(Concat(cl))));
      NoDup(Metric(S, cl)) &&
      Elems(Metric(S, cl)) == set c | c in P && c in S && S[c].kind.Clique? :: S[c].kind.loc
  {
    var (states, opers, prior) := Lineage(S, cl);
    DedupFacts(Concat(cl));
    FlatParentsElems(S, states);
    DedupFacts(FlatParents(S, states));
    FlatParentsElems(S, opers);
    DedupFacts(FlatParents(S, opers));
    LocsOfElems(S, prior);
    DedupFacts(LocsOf(S, prior));
  }

  /** A location's `stat` and `metric`. */
  datatype Census = Census(stat: seq<nat>, metric: seq<nat>)

  /** The census of every group, computed in the group loop from the arena
      `S` in which the states are labelled. */
  method TakeCensus(S: Arena, MC: seq<seq<seq<nat>>>) returns (cen: seq<Census>)
    ensures |cen| == |MC|
    ensures forall g :: 0 <= g < |MC| ==> cen[g] == Census(Stat(S, MC[g]), Metric(S, MC[g]))
  {
    cen := [];
    for g := 0 to |MC|
      invariant |cen| == g
      invariant forall h :: 0 <= h < g ==> cen[h] == Census(Stat(S, MC[h]), Metric(S, MC[h]))
    {
      cen := cen + [Census(Stat(S, MC[g]), Metric(S, MC[g]))];
    }
  }

  // ---- labelling ----

  /** Group `g` as a location over its cliques' ids, shown when one of
      them is. */
  function LocVertex(S: Arena, G: seq<Group>, MC: seq<seq<seq<nat>>>, cen: seq<Census>, stateMax: nat, g: nat): Vertex
    requires |MC| == |G| == |cen| && g < |G|
  {
    Vertex(IdSeq(stateMax + Offset(MC, g), |MC[g]|), SomeShown(S, MC[g]),
           Location(G[g].coord, cen[g].stat, cen[g].metric))
  }

  /** The location vertices, group after group. */
  function LocVertices(S: Arena, G: seq<Group>, MC: seq<seq<seq<nat>>>, cen: seq<Census>, stateMax: nat): (vs: seq<Vertex>)
    requires |MC| == |G| == |cen|
    ensures |vs| == |G|
    ensures forall g :: 0 <= g < |G| ==> vs[g] == LocVertex(S, G, MC, cen, stateMax, g)
  {
    seq(|G|, g requires 0 <= g < |G| => LocVertex(S, G, MC, cen, stateMax, g))
  }

  /** `W` is the arena `S` (states labelled up to `stateMax`) with the
      cliques `MC` of the groups `G` labelled up to `cliqueMax`, and then the
      groups' locations. */
  ghost predicate Labelled(W: Arena, S: Arena, stateMax: nat, cliqueMax: nat, G: seq<Group>, MC: seq<seq<seq<nat>>>, cen: seq<Census>) {
    |MC| == |G| == |cen| && cliqueMax == stateMax + |Concat(MC)| &&
    W == Appended(Appended(S, stateMax, CliqueVertices(S, MC, cliqueMax)), cliqueMax, LocVertices(S, G, MC, cen, stateMax))
  }

  /** The clique and location loops of `findCliques`. */
  method LabelCliques(S: Arena, stateMax: nat, G: seq<Group>, MC: seq<seq<seq<nat>>>, cen: seq<Census>)
    returns (V: Arena, cliqueMax: nat, locMax: nat)
    requires |MC| == |G| == |cen|
    ensures Labelled(V, S, stateMax, cliqueMax, G, MC, cen) && locMax == cliqueMax + |G|
  {
    cliqueMax := stateMax + |Concat(MC)|;
    CliqueVerticesLength(S, MC, cliqueMax);
    var id;
    V, id := Store(S, stateMax, CliqueVertices(S, MC, cliqueMax));
    assert id == cliqueMax;
    V, locMax := Store(V, cliqueMax, LocVertices(S, G, MC, cen, stateMax));
  }

  /** The members of the cliques are states labelled before. */
  ghost predicate CliquesBelow(MC: seq<seq<seq<nat>>>, stateMax: nat) {
    forall g, k, x :: 0 <= g < |MC| && 0 <= k < |MC[g]| && x in MC[g][k] ==> x <= stateMax
  }
}
