/** What one step of `findCliques` leaves in the vertex map: the id
    layout of the new vertices, where each clique and location sits, and the
    `show` and `loc` links between them. */
module EngineStep {
  import opened SeqUtil
  import opened CausalGraph
  import opened EngineCore
  import opened EngineCliques

  /** The vertices that were there stay. */
  lemma LabelledOld(W: Arena, S: Arena, stateMax: nat, cliqueMax: nat, G: seq<Group>, MC: seq<seq<seq<nat>>>, cen: seq<Census>, i: nat)
    requires Labelled(W, S, stateMax, cliqueMax, G, MC, cen) && i in S && i <= stateMax
    ensures i in W && W[i] == S[i]
  {
    TwiceOld(S, stateMax, CliqueVertices(S, MC, cliqueMax), cliqueMax, LocVertices(S, G, MC, cen, stateMax), i);
  }

  /** Clique `k` of group `g` gets the id `stateMax + Offset(MC, g) + k + 1`,
      lists the clique's states as its parents, is shown exactly when one of
      them is, and points at the location of its group. */
  lemma LabelledClique(W: Arena, S: Arena, stateMax: nat, cliqueMax: nat, G: seq<Group>, MC: seq<seq<seq<nat>>>, cen: seq<Census>, g: nat, k: nat)
    requires Labelled(W, S, stateMax, cliqueMax, G, MC, cen) && g < |G| && k < |MC[g]|
    ensures var q := stateMax + Offset(MC, g) + k + 1;
      q <= cliqueMax && q in W && W[q] == Vertex(MC[g][k], AnyShown(S, MC[g][k]), Clique(cliqueMax + g + 1))
  {
    CliqueVerticesAt(S, MC, cliqueMax, g, k);
    TwiceMid(S, stateMax, CliqueVertices(S, MC, cliqueMax), cliqueMax, LocVertices(S, G, MC, cen, stateMax),
             Offset(MC, g) + k, stateMax + Offset(MC, g) + k + 1);
  }

  /** Group `g` becomes the location `cliqueMax + g + 1`. */
  lemma LabelledLocation(W: Arena, S: Arena, stateMax: nat, cliqueMax: nat, G: seq<Group>, MC: seq<seq<seq<nat>>>, cen: seq<Census>, g: nat)
    requires Labelled(W, S, stateMax, cliqueMax, G, MC, cen) && g < |G|
    ensures cliqueMax + g + 1 in W && W[cliqueMax + g + 1] == LocVertex(S, G, MC, cen, stateMax, g)
  {
    var lv := LocVertices(S, G, MC, cen, stateMax);
    TwiceNew(S, stateMax, CliqueVertices(S, MC, cliqueMax), cliqueMax, lv, g, cliqueMax + g + 1);
    assert lv[g] == LocVertex(S, G, MC, cen, stateMax, g);
  }

  /** A clique is shown exactly when one of its parent states is
      (`clique.show = clique.parent.some(x => x.show)`). */
  lemma ShownClique(W: Arena, S: Arena, stateMax: nat, cliqueMax: nat, G: seq<Group>, MC: seq<seq<seq<nat>>>, cen: seq<Census>, g: nat, k: nat)
    requires Labelled(W, S, stateMax, cliqueMax, G, MC, cen) && g < |G| && k < |MC[g]|
    requires forall x :: x in MC[g][k] ==> x in S && x <= stateMax
    ensures var q := stateMax + Offset(MC, g) + k + 1;
      q in W && (W[q].show <==> exists x :: x in W[q].parents && x in W && W[x].show)
  {
    LabelledClique(W, S, stateMax, cliqueMax, G, MC, cen, g, k);
    forall x | x in MC[g][k] ensures x in W && W[x] == S[x] {
      LabelledOld(W, S, stateMax, cliqueMax, G, MC, cen, x);
    }
  }

  /** The parents of location `g` are exactly its group's cliques, and each
      of them points back at it. */
  lemma CliquesOfLocation(W: Arena, S: Arena, stateMax: nat, cliqueMax: nat, G: seq<Group>, MC: seq<seq<seq<nat>>>, cen: seq<Census>, g: nat)
    requires Labelled(W, S, stateMax, cliqueMax, G, MC, cen) && g < |G|
    ensures var l := cliqueMax + g + 1;
      l in W && W[l].kind.Location? && W[l].kind.coord == G[g].coord &&
      W[l].show == SomeShown(S, MC[g]) && |W[l].parents| == |MC[g]| &&
      forall k :: 0 <= k < |MC[g]| ==>
        W[l].parents[k] == stateMax + Offset(MC, g) + k + 1 && W[l].parents[k] in W &&
        W[W[l].parents[k]] == Vertex(MC[g][k], AnyShown(S, MC[g][k]), Clique(l))
  {
    LabelledLocation(W, S, stateMax, cliqueMax, G, MC, cen, g);
    var l := cliqueMax + g + 1;
    var ps := W[l].parents;
    assert ps == IdSeq(stateMax + Offset(MC, g), |MC[g]|);
    forall k | 0 <= k < |MC[g]|
      ensures ps[k] == stateMax + Offset(MC, g) + k + 1 && ps[k] in W &&
        W[ps[k]] == Vertex(MC[g][k], AnyShown(S, MC[g][k]), Clique(l))
    {
      LabelledClique(W, S, stateMax, cliqueMax, G, MC, cen, g, k);
    }
  }

  /** A location is shown exactly when one of its cliques is
      (`l.show = l.parent.some(x => x.show)`). */
  lemma ShownLocation(W: Arena, S: Arena, stateMax: nat, cliqueMax: nat, G: seq<Group>, MC: seq<seq<seq<nat>>>, cen: seq<Census>, g: nat)
    requires Labelled(W, S, stateMax, cliqueMax, G, MC, cen) && g < |G|
    ensures var l := cliqueMax + g + 1;
      l in W && (W[l].show <==> exists p :: p in W[l].parents && p in W && W[p].show)
  {
    var l := cliqueMax + g + 1;
    CliquesOfLocation(W, S, stateMax, cliqueMax, G, MC, cen, g);
    ShownFromCliques(W, S, l, MC[g]);
  }

  lemma ShownFromCliques(W: Arena, S: Arena, l: nat, cl: seq<seq<nat>>)
    requires l in W && W[l].show == SomeShown(S, cl) && |W[l].parents| == |cl|
    requires forall k :: 0 <= k < |cl| ==> W[l].parents[k] in W && W[W[l].parents[k]].show == AnyShown(S, cl[k])
    ensures W[l].show <==> exists p :: p in W[l].parents && p in W && W[p].show
  {
    var ps := W[l].parents;
    if W[l].show {
      var k :| 0 <= k < |cl| && AnyShown(S, cl[k]);
      assert ps[k] in ps && W[ps[k]].show;
    }
    if exists p :: p in ps && p in W && W[p].show {
      var p :| p in ps && p in W && W[p].show;
      var k :| 0 <= k < |ps| && ps[k] == p;
      assert AnyShown(S, cl[k]);
    }
  }

  /** Each new clique points at the location whose parents list it. */
  lemma CliqueInItsLocation(W: Arena, S: Arena, stateMax: nat, cliqueMax: nat, G: seq<Group>, MC: seq<seq<seq<nat>>>, cen: seq<Census>, q: nat)
    requires Labelled(W, S, stateMax, cliqueMax, G, MC, cen) && stateMax < q <= cliqueMax
    ensures q in W && W[q].kind.Clique?
    ensures var l := W[q].kind.loc; cliqueMax < l <= cliqueMax + |G| && l in W && q in W[l].parents
  {
    CliqueGroup(MC, q - stateMax - 1);
    var g :| 0 <= g < |MC| && Offset(MC, g) <= q - stateMax - 1 < Offset(MC, g) + |MC[g]|;
    var k := q - stateMax - 1 - Offset(MC, g);
    CliquesOfLocation(W, S, stateMax, cliqueMax, G, MC, cen, g);
    var l := cliqueMax + g + 1;
    assert W[l].parents[k] == q;
  }

  /** The new arena has the ids `1..cliqueMax + |G|`. */
  lemma LabelledDense(W: Arena, S: Arena, stateMax: nat, cliqueMax: nat, G: seq<Group>, MC: seq<seq<seq<nat>>>, cen: seq<Census>)
    requires Labelled(W, S, stateMax, cliqueMax, G, MC, cen) && Dense(S, stateMax)
    ensures Dense(W, cliqueMax + |G|)
  {
    var cv := CliqueVertices(S, MC, cliqueMax);
    CliqueVerticesLength(S, MC, cliqueMax);
    AppendedDense(S, stateMax, cv);
    AppendedDense(Appended(S, stateMax, cv), cliqueMax, LocVertices(S, G, MC, cen, stateMax));
  }

  /** Cliques over earlier states and locations over their cliques keep
      every parent below its child. */
  lemma LabelledBelow(W: Arena, S: Arena, stateMax: nat, cliqueMax: nat, G: seq<Group>, MC: seq<seq<seq<nat>>>, cen: seq<Census>)
    requires Labelled(W, S, stateMax, cliqueMax, G, MC, cen)
    requires Below(S) && (forall i :: i in S ==> i <= stateMax) && CliquesBelow(MC, stateMax)
    ensures Below(W)
  {
    var cv := CliqueVertices(S, MC, cliqueMax);
    var lv := LocVertices(S, G, MC, cen, stateMax);
    CliqueParentsBelow(S, MC, cliqueMax, stateMax, cv);
    AppendedBelow(S, stateMax, cv);
    AppendedKeys(S, stateMax, cv);
    CliqueVerticesLength(S, MC, cliqueMax);
    LocParentsBelow(S, G, MC, cen, stateMax, cliqueMax, lv);
    AppendedBelow(Appended(S, stateMax, cv), cliqueMax, lv);
  }

  lemma CliqueParentsBelow(S: Arena, MC: seq<seq<seq<nat>>>, cliqueMax: nat, stateMax: nat, cv: seq<Vertex>)
    requires CliquesBelow(MC, stateMax) && cv == CliqueVertices(S, MC, cliqueMax)
    ensures forall j, p :: 0 <= j < |cv| && p in cv[j].parents ==> p <= stateMax + j
  {
    CliqueVerticesLength(S, MC, cliqueMax);
    forall j, p | 0 <= j < |cv| && p in cv[j].parents ensures p <= stateMax + j {
      CliqueGroup(MC, j);
      var g :| 0 <= g < |MC| && Offset(MC, g) <= j < Offset(MC, g) + |MC[g]|;
      CliqueVerticesAt(S, MC, cliqueMax, g, j - Offset(MC, g));
    }
  }

  lemma LocParentsBelow(S: Arena, G: seq<Group>, MC: seq<seq<seq<nat>>>, cen: seq<Census>, stateMax: nat, cliqueMax: nat, lv: seq<Vertex>)
    requires |MC| == |G| == |cen| && cliqueMax == stateMax + |Concat(MC)|
    requires lv == LocVertices(S, G, MC, cen, stateMax)
    ensures forall g, p :: 0 <= g < |lv| && p in lv[g].parents ==> p <= cliqueMax + g
  {
    forall g, p | 0 <= g < |lv| && p in lv[g].parents ensures p <= cliqueMax + g {
      OffsetStep(MC, g);
      assert lv[g] == LocVertex(S, G, MC, cen, stateMax, g);
    }
  }

  lemma TwiceOld(S: Arena, b1: nat, cv: seq<Vertex>, b2: nat, lv: seq<Vertex>, i: nat)
    requires i in S && i <= b1 <= b2
    ensures i in Appended(Appended(S, b1, cv), b2, lv) && Appended(Appended(S, b1, cv), b2, lv)[i] == S[i]
  {
    AppendedOld(S, b1, cv, i);
    AppendedOld(Appended(S, b1, cv), b2, lv, i);
  }

  lemma TwiceMid(S: Arena, b1: nat, cv: seq<Vertex>, b2: nat, lv: seq<Vertex>, j: nat, q: nat)
    requires j < |cv| && b1 + |cv| == b2 && q == b1 + j + 1
    ensures q in Appended(Appended(S, b1, cv), b2, lv)
    ensures Appended(Appended(S, b1, cv), b2, lv)[q] == cv[j]
  {
    AppendedNew(S, b1, cv, j);
    AppendedOld(Appended(S, b1, cv), b2, lv, q);
  }

  lemma TwiceNew(S: Arena, b1: nat, cv: seq<Vertex>, b2: nat, lv: seq<Vertex>, g: nat, l: nat)
    requires g < |lv| && l == b2 + g + 1
    ensures l in Appended(Appended(S, b1, cv), b2, lv)
    ensures Appended(Appended(S, b1, cv), b2, lv)[l] == lv[g]
  {
    AppendedNew(Appended(S, b1, cv), b2, lv, g);
  }
}
