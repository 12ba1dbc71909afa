/** The layer messages `server/model.mjs` sends its clique workers
    (`addLayer` and `delLayer`) and what replaying them does to a worker's
    mirror graph. `addLayer(start, end, clique)` lists, for every id of the
    range, one link per parent of its vertex in `V`; `delLayer` names the
    range only. */
module EngineMirror {
  import opened SeqUtil
  import opened CausalGraph
  import opened Layout
  import opened EngineCore
  import opened CliqueWorker

  /** A message to every clique worker. */
  datatype Mirror =
    | AddLayer(start: nat, end: nat, links: seq<Link>, clique: bool)
    | DelLayer(start: nat, end: nat)

  /** `V.get(i).parent.forEach(x => links.push([i, x.id]))` for the parents
      `ps` of `i`. */
  function ChildLinks(i: nat, ps: seq<nat>): seq<Link>
    decreases |ps|
  {
    if ps == [] then [] else ChildLinks(i, ps[..|ps| - 1]) + [Link(i, ps[|ps| - 1])]
  }

  /** The links of `addLayer(start, end)`: the parent links of the ids
      `start..end`, id after id. */
  function LayerLinks(V: Arena, start: nat, end: int): seq<Link>
    requires forall i :: start <= i <= end ==> i in V
    decreases end - start
  {
    if end < start then [] else LayerLinks(V, start, end - 1) + ChildLinks(end, V[end].parents)
  }

  lemma {:induction false} ParentsFromConcat(a: seq<Link>, b: seq<Link>, v: nat)
    ensures ParentsFrom(a + b, v) == ParentsFrom(a, v) + ParentsFrom(b, v)
    decreases |a|
  {
    if a != [] {
      var h := if a[0].child == v then [a[0].parent] else [];
      assert (a + b)[0] == a[0] && (a + b)[1..] == a[1..] + b;
      ParentsFromConcat(a[1..], b, v);
      calc {
        ParentsFrom(a + b, v);
        h + ParentsFrom(a[1..] + b, v);
        h + (ParentsFrom(a[1..], v) + ParentsFrom(b, v));
        { AppendAssoc(h, ParentsFrom(a[1..], v), ParentsFrom(b, v)); }
        (h + ParentsFrom(a[1..], v)) + ParentsFrom(b, v);
      }
    } else {
      assert a + b == b;
    }
  }

  lemma {:induction false} ChildLinksParents(i: nat, ps: seq<nat>, v: nat)
    ensures ParentsFrom(ChildLinks(i, ps), v) == if v == i then ps else []
    ensures forall k :: 0 <= k < |ChildLinks(i, ps)| ==> ChildLinks(i, ps)[k].child == i && ChildLinks(i, ps)[k].parent in ps
    decreases |ps|
  {
    if ps != [] {
      var pre := ps[..|ps| - 1];
      ChildLinksParents(i, pre, v);
      ParentsFromConcat(ChildLinks(i, pre), [Link(i, ps[|ps| - 1])], v);
      assert ParentsFrom([Link(i, ps[|ps| - 1])], v) == (if v == i then [ps[|ps| - 1]] else []) + ParentsFrom([], v);
      assert pre + [ps[|ps| - 1]] == ps;
      var cl := ChildLinks(i, ps);
      forall k | 0 <= k < |cl| ensures cl[k].child == i && cl[k].parent in ps {
        if k < |cl| - 1 {
          assert cl[k] == ChildLinks(i, pre)[k];
        }
      }
    }
  }

  /** Replaying the layer gives every id of the range exactly the parents
      of its vertex, and no other id any; every link goes from an id of the
      range to one of its parents. */
  lemma {:induction false} LayerLinksParents(V: Arena, start: nat, end: int, v: nat)
    requires forall i :: start <= i <= end ==> i in V
    ensures ParentsFrom(LayerLinks(V, start, end), v) == if start <= v <= end then V[v].parents else []
    ensures forall k :: 0 <= k < |LayerLinks(V, start, end)| ==>
      var l := LayerLinks(V, start, end)[k];
      start <= l.child <= end && l.parent in V[l.child].parents
    decreases end - start
  {
    if start <= end {
      var pre := LayerLinks(V, start, end - 1);
      var cl := ChildLinks(end, V[end].parents);
      LayerLinksParents(V, start, end - 1, v);
      ChildLinksParents(end, V[end].parents, v);
      ParentsFromConcat(pre, cl, v);
      var all := pre + cl;
      forall k | 0 <= k < |all| ensures start <= all[k].child <= end && all[k].parent in V[all[k].child].parents {
        if k < |pre| {
          assert all[k] == pre[k];
        } else {
          assert all[k] == cl[k - |pre|];
        }
      }
    }
  }

  /** Two arenas that agree on the range give the same links. */
  lemma {:induction false} LayerLinksAgree(V: Arena, W: Arena, start: nat, end: int)
    requires forall i :: start <= i <= end ==> i in V && i in W && V[i] == W[i]
    ensures LayerLinks(V, start, end) == LayerLinks(W, start, end)
    decreases end - start
  {
    if start <= end {
      LayerLinksAgree(V, W, start, end - 1);
    }
  }

  /** `links` lays out the range `start..end` of `V`: replayed, they give
      every id of the range exactly the parents of its vertex, in order, and
      no other id any; every link goes from an id of the range to one of its
      parents. */
  ghost predicate LaysOut(V: Arena, start: nat, end: int, links: seq<Link>) {
    (forall i :: start <= i <= end ==> i in V) &&
    forall v: nat {:trigger ParentsFrom(links, v)} :: ParentsFrom(links, v) == if start <= v <= end then V[v].parents else []
  }

  /** Every link of a laid-out range goes from an id of the range to one of
      its parents. */
  lemma LaidLinks(V: Arena, start: nat, end: int, links: seq<Link>)
    requires LaysOut(V, start, end, links)
    ensures forall k :: 0 <= k < |links| ==> start <= links[k].child <= end && links[k].parent in V[links[k].child].parents
  {
    forall k | 0 <= k < |links| ensures start <= links[k].child <= end && links[k].parent in V[links[k].child].parents {
      ParentsFromHas(links, k);
    }
  }

  /** The links `addLayer` builds lay out their range. */
  lemma LayerLinksLaysOut(V: Arena, start: nat, end: int)
    requires forall i :: start <= i <= end ==> i in V
    ensures LaysOut(V, start, end, LayerLinks(V, start, end))
  {
    forall v: nat ensures ParentsFrom(LayerLinks(V, start, end), v) == if start <= v <= end then V[v].parents else [] {
      LayerLinksParents(V, start, end, v);
    }
    LayerLinksParents(V, start, end, 0);
  }

  /** Links that lay out a range of one arena lay it out in any arena that
      agrees with it there. */
  lemma LaysOutAgree(V: Arena, W: Arena, start: nat, end: int, links: seq<Link>)
    requires LaysOut(V, start, end, links)
    requires forall i :: start <= i <= end ==> i in W && W[i] == V[i]
    ensures LaysOut(W, start, end, links)
  {
  }

  /** The link loop of `addLayer(start, end)`. */
  method CollectLinks(V: Arena, start: nat, end: nat) returns (links: seq<Link>)
    requires forall i :: start <= i <= end ==> i in V
    ensures links == LayerLinks(V, start, end)
  {
    links := [];
    var i := start;
    while i <= end
      invariant start <= i <= if end < start then start else end + 1
      invariant links == LayerLinks(V, start, i - 1)
    {
      var ps := V[i].parents;
      ghost var before := links;
      for k := 0 to |ps|
        invariant links == before + ChildLinks(i, ps[..k])
      {
        assert ps[..k + 1][..k] == ps[..k];
        links := links + [Link(i, ps[k])];
      }
      assert ps[..|ps|] == ps;
      i := i + 1;
    }
  }

  /** `addLayer(start, end, clique)`: the message of the range, whose links
      lay the range out. */
  method LayerMessage(V: Arena, start: nat, end: nat, clique: bool) returns (m: Mirror)
    requires forall i :: start <= i <= end ==> i in V
    ensures m.AddLayer? && m.start == start && m.end == end && m.clique == clique
    ensures LaysOut(V, start, end, m.links)
  {
    var links := CollectLinks(V, start, end);
    LayerLinksLaysOut(V, start, end);
    m := AddLayer(start, end, links, clique);
  }

  /** Every `addLayer` of `ms` lays its range of `V` out. */
  ghost predicate LaidOut(V: Arena, ms: seq<Mirror>)
    decreases |ms|
  {
    ms == [] || ((ms[0].AddLayer? ==> LaysOut(V, ms[0].start, ms[0].end, ms[0].links)) && LaidOut(V, ms[1..]))
  }

  /** Two messages are laid out when each of them is. */
  lemma LaidOutPair(V: Arena, a: Mirror, b: Mirror)
    ensures LaidOut(V, [a, b]) <==>
      (a.AddLayer? ==> LaysOut(V, a.start, a.end, a.links)) && (b.AddLayer? ==> LaysOut(V, b.start, b.end, b.links))
  {
    assert [a, b][1..] == [b] && [b][1..] == [];
    assert LaidOut(V, [b]) <==> (b.AddLayer? ==> LaysOut(V, b.start, b.end, b.links)) && LaidOut(V, []);
  }

  /** What a worker's mirror becomes on one message. */
  function Apply(W: Graph, m: Mirror): Graph {
    match m
    case AddLayer(start, end, links, clique) => AddSpec(W, start, end, clique, links).0
    case DelLayer(start, end) => DelSpec(W, start, end)
  }

  /** What it becomes on a sequence of messages, in order. */
  function Replay(W: Graph, ms: seq<Mirror>): Graph
    decreases |ms|
  {
    if ms == [] then W else Replay(Apply(W, ms[0]), ms[1..])
  }

  lemma {:induction false} ReplayConcat(W: Graph, a: seq<Mirror>, b: seq<Mirror>)
    ensures Replay(W, a + b) == Replay(Replay(W, a), b)
    decreases |a|
  {
    if a != [] {
      assert (a + b)[0] == a[0] && (a + b)[1..] == a[1..] + b;
      ReplayConcat(Apply(W, a[0]), a[1..], b);
      calc {
        Replay(W, a + b);
        Replay(Apply(W, a[0]), a[1..] + b);
        Replay(Replay(Apply(W, a[0]), a[1..]), b);
      }
    } else {
      assert a + b == b;
    }
  }

  /** `addLayer` of a range of `V` goes through, and the mirror then holds
      every id of the range as its vertex in `V` (its parents, and the
      `clique` flag of the message) and every other id as before. */
  lemma AddLayerInstalls(W: Graph, V: Arena, start: nat, end: int, clique: bool, links: seq<Link>)
    requires LaysOut(V, start, end, links)
    ensures AddSpec(W, start, end, clique, links).1
    ensures var W2 := AddSpec(W, start, end, clique, links).0;
      W2.Keys == W.Keys + IdRange(start, end) &&
      (forall i :: start <= i <= end ==> W2[i] == Node(V[i].parents, clique)) &&
      (forall i :: i in W && !(start <= i <= end) ==> W2[i] == W[i])
  {
    var W1 := WithVertices(W, start, end, clique);
    assert AddSpec(W, start, end, clique, links).1 by {
      LaidLinks(V, start, end, links);
      WithVerticesFacts(W, start, end, clique);
      assert forall k :: 0 <= k < |links| ==> links[k].child in W1;
      LinkedSucceeds(W1, links);
    }
    var W2 := AddSpec(W, start, end, clique, links).0;
    AddCreatesRange(W, start, end, clique, links);
    forall i | start <= i <= end ensures W2[i] == Node(V[i].parents, clique) {
      assert ParentsFrom(links, i) == V[i].parents;
    }
    forall i | i in W && !(start <= i <= end) ensures W2[i] == W[i] {
      WithVerticesFacts(W, start, end, clique);
      LinkedParents(W1, links);
      assert W1[i] == W[i];
      assert ParentsFrom(links, i) == [];
      assert W[i].parents + [] == W[i].parents;
    }
  }

  /** The messages of a step whose clique jobs were rejected, `addLayer`
      and `delLayer` of the same range, leave the mirror as it was outside
      the range and without the range. */
  lemma AddThenDelLayer(W: Graph, V: Arena, start: nat, end: nat, links: seq<Link>)
    requires LaysOut(V, start, end, links)
    ensures Replay(W, [AddLayer(start, end, links, false), DelLayer(start, end)]) == DelSpec(W, start, end)
  {
    var m1 := AddLayer(start, end, links, false);
    var m2 := DelLayer(start, end);
    AddLayerInstalls(W, V, start, end, false, links);
    assert [m1, m2][1..] == [m2] && [m2][1..] == [];
    calc {
      Replay(W, [m1, m2]);
      Replay(Apply(W, m1), [m2]);
      Replay(Apply(Apply(W, m1), m2), []);
    }
  }

  /** A replayed layer of parents that sit below their children keeps the
      mirror's ancestor search terminating. */
  lemma AddLayerBelow(W: Graph, V: Arena, start: nat, end: int, clique: bool, links: seq<Link>)
    requires ParentsBelow(W) && Below(V) && LaysOut(V, start, end, links)
    ensures ParentsBelow(AddSpec(W, start, end, clique, links).0)
  {
    LaidLinks(V, start, end, links);
    forall k | 0 <= k < |links| ensures links[k].parent < links[k].child {
      var j :| 0 <= j < |V[links[k].child].parents| && V[links[k].child].parents[j] == links[k].parent;
    }
    AddLayerInstalls(W, V, start, end, clique, links);
    AddKeepsParentsBelow(W, start, end, clique, links);
  }
}
