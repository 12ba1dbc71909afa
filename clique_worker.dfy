/** The clique worker thread of the server (`server/clique.mjs`): a mirror
    `G` of the causal graph, kept up to date by `add` and `del` messages, and
    the `clique` action that answers with the maximal spacelike subsets of a
    list of state ids. A vertex is a barrier for the ancestor search when it
    carries the `clique` flag, which the projection into `CausalGraph.Node`
    keeps as it is. */
module CliqueWorker {
  import opened SeqUtil
  import opened CausalGraph
  import opened Layout

  /** A field of a `clique` request or reply. */
  datatype Field = Text(s: string) | Number(n: int) | IdList(ids: seq<nat>) | IdLists(lists: seq<seq<nat>>)

  /** What the `clique` action does: post a reply, or throw a `TypeError`
      (the request has no `states` array, or names an id `G` does not hold). */
  datatype Reply = Posted(fields: map<string, Field>) | TypeError

  /** `G` after the first loop of `add`: every id of `start..end` is (re)set
      to a vertex without parents, flagged iff `clique`. */
  function WithVertices(G: Graph, start: nat, end: int, clique: bool): (r: Graph)
    decreases end - start
  {
    if end < start then G else WithVertices(G, start, end - 1, clique)[end := Node([], clique)]
  }

  /** The vertices `WithVertices` leaves: the range is new and unlinked, every
      other entry is the one `G` had. */
  lemma {:induction false} WithVerticesFacts(G: Graph, start: nat, end: int, clique: bool)
    ensures forall i :: i in WithVertices(G, start, end, clique) <==> i in G || start <= i <= end
    ensures forall i :: start <= i <= end ==> WithVertices(G, start, end, clique)[i] == Node([], clique)
    ensures forall i :: i in G && !(start <= i <= end) ==> WithVertices(G, start, end, clique)[i] == G[i]
    decreases end - start
  {
    if start <= end {
      WithVerticesFacts(G, start, end - 1, clique);
    }
  }

  /** The `links.forEach` of `add`: each link appends its parent id to its
      child's list; a child that `G` does not hold throws, leaving the links
      before it applied. The flag says whether every link went through. */
  function Linked(G: Graph, links: seq<Link>): (Graph, bool)
    decreases |links|
  {
    if links == [] then (G, true)
    else if links[0].child !in G then (G, false)
    else
      var c := links[0].child;
      Linked(G[c := Node(G[c].parents + [links[0].parent], G[c].clique)], links[1..])
  }

  /** The whole `add` action. */
  function AddSpec(G: Graph, start: nat, end: int, clique: bool, links: seq<Link>): (Graph, bool) {
    Linked(WithVertices(G, start, end, clique), links)
  }

  /** The `del` action: the ids `start..end` are gone, every other entry stays. */
  function DelSpec(G: Graph, start: nat, end: int): (r: Graph)
    ensures forall i :: i in r <==> i in G && !(start <= i <= end)
    ensures forall i :: i in r ==> r[i] == G[i]
  {
    map i | i in G && !(start <= i <= end) :: G[i]
  }

  /** The first loop of `add`. */
  method SetVertices(G: Graph, start: nat, end: int, clique: bool) returns (H: Graph)
    ensures H == WithVertices(G, start, end, clique)
  {
    H := G;
    var i: nat := start;
    while i <= end
      invariant start <= i && (i <= end + 1 || i == start)
      invariant H == WithVertices(G, start, i - 1, clique)
    {
      H := H[i := Node([], clique)];
      i := i + 1;
    }
  }

  /** The `links.forEach` of `add`. */
  method ApplyLinks(G: Graph, links: seq<Link>) returns (H: Graph, ok: bool)
    ensures (H, ok) == Linked(G, links)
  {
    H := G;
    var k := 0;
    while k < |links|
      invariant 0 <= k <= |links|
      invariant Linked(H, links[k..]) == Linked(G, links)
    {
      var l := links[k];
      assert links[k..][1..] == links[k + 1..];
      if l.child !in H {
        return H, false;
      }
      H := H[l.child := Node(H[l.child].parents + [l.parent], H[l.child].clique)];
      k := k + 1;
    }
    return H, true;
  }

  class Worker {
    /** Vertex id to vertex. */
    var G: Graph

    constructor()
      ensures G == map[]
    {
      G := map[];
    }

    /** `d.action === 'add'`. */
    method Add(start: nat, end: int, clique: bool, links: seq<Link>) returns (ok: bool)
      modifies this
      ensures (G, ok) == AddSpec(old(G), start, end, clique, links)
    {
      var H := SetVertices(G, start, end, clique);
      G, ok := ApplyLinks(H, links);
    }

    /** `d.action === 'del'`: delete `end` down to `start`. */
    method Del(start: nat, end: nat)
      modifies this
      ensures G == DelSpec(old(G), start, end)
    {
      var i := end;
      while i >= start
        invariant i <= end && (i >= start - 1 || i == end)
        invariant G == DelSpec(old(G), i + 1, end)
      {
        G := G - {i};
        i := i - 1;
      }
    }

    /** `d.action === 'clique'`: the reply keeps every request field but
        `states` and adds `cliques`, the maximal spacelike subsets of the
        listed states. */
    method Clique(req: map<string, Field>) returns (reply: Reply)
      requires ParentsBelow(G)
      requires "states" in req && req["states"].IdList? ==> NoDup(req["states"].ids)
      ensures reply.TypeError? <==>
        !("states" in req && req["states"].IdList? && forall x :: x in req["states"].ids ==> x in G)
      ensures reply.Posted? ==>
        var states := req["states"].ids;
        reply.fields.Keys == req.Keys - {"states"} + {"cliques"} &&
        (forall f :: f in req && f != "states" && f != "cliques" ==> reply.fields[f] == req[f]) &&
        reply.fields["cliques"].IdLists? &&
        ReportsMaximalSpacelike(G, states, reply.fields["cliques"].lists)
    {
      if "states" !in req || !req["states"].IdList? {
        return TypeError;
      }
      var states := req["states"].ids;
      if exists x :: x in states && x !in G {
        return TypeError;
      }
      var cliques := SpacelikeBronKerbosch(G, states);
      var result := map f | f in req && f != "states" :: req[f];
      return Posted(result["cliques" := IdLists(cliques)]);
    }
  }

  /** `add` fails exactly when some link names a child that is neither in `G`
      nor in the new range. */
  lemma LinkedSucceeds(G: Graph, links: seq<Link>)
    ensures Linked(G, links).1 <==> forall k :: 0 <= k < |links| ==> links[k].child in G
    ensures Linked(G, links).0.Keys == G.Keys
  {
    LinkedOk(G, links);
    LinkedKeys(G, links);
  }

  lemma {:induction false} LinkedOk(G: Graph, links: seq<Link>)
    ensures Linked(G, links).1 <==> forall k :: 0 <= k < |links| ==> links[k].child in G
    decreases |links|
  {
    if links != [] && links[0].child in G {
      var c := links[0].child;
      var G1 := G[c := Node(G[c].parents + [links[0].parent], G[c].clique)];
      LinkedOk(G1, links[1..]);
      assert G1.Keys == G.Keys;
      assert forall k :: 1 <= k < |links| ==> links[k] == links[1..][k - 1];
    }
  }

  lemma {:induction false} LinkedKeys(G: Graph, links: seq<Link>)
    ensures Linked(G, links).0.Keys == G.Keys
    decreases |links|
  {
    if links != [] && links[0].child in G {
      var c := links[0].child;
      var G1 := G[c := Node(G[c].parents + [links[0].parent], G[c].clique)];
      LinkedKeys(G1, links[1..]);
    }
  }

  /** When every link goes through, each vertex keeps its flag and gets the
      parents `links` assigns to it appended to its own. */
  lemma LinkedParents(G: Graph, links: seq<Link>)
    requires Linked(G, links).1
    ensures Linked(G, links).0.Keys == G.Keys
    ensures forall v :: v in G ==>
      Linked(G, links).0[v] == Node(G[v].parents + ParentsFrom(links, v), G[v].clique)
  {
    LinkedKeys(G, links);
    forall v | v in G
      ensures Linked(G, links).0[v] == Node(G[v].parents + ParentsFrom(links, v), G[v].clique)
    {
      LinkedAt(G, links, v);
    }
  }

  lemma {:induction false} LinkedAt(G: Graph, links: seq<Link>, v: nat)
    requires v in G && Linked(G, links).1
    ensures v in Linked(G, links).0
    ensures Linked(G, links).0[v] == Node(G[v].parents + ParentsFrom(links, v), G[v].clique)
    decreases |links|
  {
    if links != [] {
      var c := links[0].child;
      var G1 := G[c := Node(G[c].parents + [links[0].parent], G[c].clique)];
      LinkedAt(G1, links[1..], v);
      if v == c {
        AppendAssoc(G[v].parents, [links[0].parent], ParentsFrom(links[1..], v));
      } else {
        assert G1[v] == G[v];
      }
    }
  }

  /** `add` makes every id of the range a vertex whose parents are exactly
      the ones its links give it, flagged iff `clique`. */
  lemma AddCreatesRange(G: Graph, start: nat, end: int, clique: bool, links: seq<Link>)
    requires AddSpec(G, start, end, clique, links).1
    ensures AddSpec(G, start, end, clique, links).0.Keys == G.Keys + IdRange(start, end)
    ensures forall i :: start <= i <= end ==>
      AddSpec(G, start, end, clique, links).0[i] == Node(ParentsFrom(links, i), clique)
  {
    var W := WithVertices(G, start, end, clique);
    WithVerticesFacts(G, start, end, clique);
    LinkedParents(W, links);
    LinkedSucceeds(W, links);
    forall i | start <= i <= end ensures W[i].parents + ParentsFrom(links, i) == ParentsFrom(links, i) {
      assert W[i].parents == [];
    }
  }

  /** The layers the engine sends link a vertex only to older ids, so the
      mirror stays a graph whose ancestor searches terminate. */
  lemma AddKeepsParentsBelow(G: Graph, start: nat, end: int, clique: bool, links: seq<Link>)
    requires ParentsBelow(G)
    requires forall k :: 0 <= k < |links| ==> links[k].parent < links[k].child
    requires AddSpec(G, start, end, clique, links).1
    ensures ParentsBelow(AddSpec(G, start, end, clique, links).0)
  {
    var W := WithVertices(G, start, end, clique);
    WithVerticesFacts(G, start, end, clique);
    var G2 := AddSpec(G, start, end, clique, links).0;
    LinkedParents(W, links);
    LinkedSucceeds(W, links);
    forall i, k | i in G2 && 0 <= k < |G2[i].parents| ensures G2[i].parents[k] < i {
      var own := W[i].parents;
      assert G2[i].parents == own + ParentsFrom(links, i);
      if k >= |own| {
        ParentsFromLinks(links, i);
        assert G2[i].parents[k] in ParentsFrom(links, i);
      } else {
        assert own[k] == G2[i].parents[k];
        assert i in G && own == G[i].parents;
      }
    }
  }

  /** `addLayer` followed by `delLayer` of the same fresh range, with links
      only out of that range, gives back the graph it started from. */
  lemma AddThenDelRestores(G: Graph, start: nat, end: int, clique: bool, links: seq<Link>)
    requires forall i :: i in G ==> i < start
    requires forall k :: 0 <= k < |links| ==> start <= links[k].child <= end
    ensures AddSpec(G, start, end, clique, links).1
    ensures DelSpec(AddSpec(G, start, end, clique, links).0, start, end) == G
  {
    var W := WithVertices(G, start, end, clique);
    WithVerticesFacts(G, start, end, clique);
    LinkedSucceeds(W, links);
    LinkedParents(W, links);
    var G2 := AddSpec(G, start, end, clique, links).0;
    forall i | i in G ensures G2[i] == G[i] {
      ParentsFromNone(links, i);
      assert G[i].parents + [] == G[i].parents;
    }
  }
}
