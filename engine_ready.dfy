/** `postReady(d)` of both engines: the data of the `ready` message for the
    latest step. `hide` lists the ids of the step that are not shown, `links`
    every parent link of the latest lists whose two ends are shown, and
    `coords`, `stats` and `metric` one entry per location. */
module EngineReady {
  import opened SeqUtil
  import opened Layout
  import opened EngineCore
  import opened EngineReconstruct

  /** The data part of the message (`detectors` is added by `setup`). */
  datatype Ready = Ready(step: nat, ids: Ids, hidden: seq<nat>, links: seq<Link>,
                         coords: seq<int>, stats: seq<seq<nat>>, metric: seq<seq<nat>>)

  /** `v.show` for the vertex with id `x`. A parent id always names a vertex
      of `V` in the engines; one that did not would count as not shown. */
  predicate Shown(V: Arena, x: nat) {
    x in V && V[x].show
  }

  /** The ids `lo+1..hi` whose vertex is not shown, in increasing order. */
  function Hidden(V: Arena, lo: nat, hi: nat): seq<nat>
    decreases hi
  {
    if hi <= lo then [] else Hidden(V, lo, hi - 1) + (if Shown(V, hi) then [] else [hi])
  }

  /** `hide` holds exactly the un-shown ids of the range, each once, in
      increasing order. */
  lemma {:induction false} HiddenExactly(V: Arena, lo: nat, hi: nat)
    ensures forall x :: x in Hidden(V, lo, hi) <==> lo < x <= hi && !Shown(V, x)
    ensures forall a, b :: 0 <= a < b < |Hidden(V, lo, hi)| ==> Hidden(V, lo, hi)[a] < Hidden(V, lo, hi)[b]
    decreases hi
  {
    if hi > lo {
      var pre := Hidden(V, lo, hi - 1);
      HiddenExactly(V, lo, hi - 1);
      forall a | 0 <= a < |pre| ensures pre[a] < hi {
        assert pre[a] in pre;
      }
    }
  }

  /** The links `[a, b]` for the parents `ps` of `a`, kept when both ends are
      shown. */
  function ParentLinks(V: Arena, a: nat, ps: seq<nat>): seq<Link>
    decreases |ps|
  {
    if ps == [] then []
    else
      var b := ps[|ps| - 1];
      ParentLinks(V, a, ps[..|ps| - 1]) + (if Shown(V, a) && Shown(V, b) then [Link(a, b)] else [])
  }

  /** `L.forEach(a => a.parent.forEach(b => { if (a.show && b.show) links.push([a.id, b.id]) }))`. */
  function LinksOf(V: Arena, L: seq<nat>): seq<Link>
    requires forall a :: a in L ==> a in V
    decreases |L|
  {
    if L == [] then []
    else LinksOf(V, L[..|L| - 1]) + ParentLinks(V, L[|L| - 1], V[L[|L| - 1]].parents)
  }

  lemma {:induction false} ParentLinksExactly(V: Arena, a: nat, ps: seq<nat>, l: Link)
    ensures l in ParentLinks(V, a, ps) <==> l.child == a && l.parent in ps && Shown(V, a) && Shown(V, l.parent)
    decreases |ps|
  {
    if ps != [] {
      ParentLinksExactly(V, a, ps[..|ps| - 1], l);
      assert ps == ps[..|ps| - 1] + [ps[|ps| - 1]];
    }
  }

  /** A link is listed exactly when its child is in the lists, its parent is
      one of the child's parents, and both are shown. */
  lemma {:induction false} LinksExactly(V: Arena, L: seq<nat>, l: Link)
    requires forall a :: a in L ==> a in V
    ensures l in LinksOf(V, L) <==> l.child in L && l.parent in V[l.child].parents && Shown(V, l.child) && Shown(V, l.parent)
    decreases |L|
  {
    if L != [] {
      var n := |L|;
      LinksExactly(V, L[..n - 1], l);
      ParentLinksExactly(V, L[n - 1], V[L[n - 1]].parents, l);
      assert L == L[..n - 1] + [L[n - 1]];
    }
  }

  /** `coord`, `stat` and `metric` of a location; a vertex that is not a
      location has none of them, and the engines put none in `Ll`. */
  function LocCoord(V: Arena, l: nat): int {
    if l in V && V[l].kind.Location? then V[l].kind.coord else 0
  }

  function LocStat(V: Arena, l: nat): seq<nat> {
    if l in V && V[l].kind.Location? then V[l].kind.stat else []
  }

  function LocMetric(V: Arena, l: nat): seq<nat> {
    if l in V && V[l].kind.Location? then V[l].kind.metric else []
  }

  /** Every vertex the message reads is in `V`: the ids of the step and the
      entries of the four lists (`V.get(i)` of a missing id would throw). */
  ghost predicate Readable(V: Arena, ids: Ids, L: Latest) {
    (forall i :: ids.prevLoc < i <= ids.loc ==> i in V) &&
    forall a :: a in L.ops + L.states + L.cliques + L.locs ==> a in V
  }

  /** The hide loop. */
  method HideList(V: Arena, lo: nat, hi: nat) returns (hs: seq<nat>)
    requires forall i :: lo < i <= hi ==> i in V
    ensures hs == Hidden(V, lo, hi)
  {
    hs := [];
    var i := lo + 1;
    while i <= hi
      invariant lo + 1 <= i <= if hi > lo then hi + 1 else lo + 1
      invariant hs == Hidden(V, lo, i - 1)
    {
      if !V[i].show {
        hs := hs + [i];
      }
      i := i + 1;
    }
  }

  /** The link loops over one list. */
  method LinkList(V: Arena, L: seq<nat>, links0: seq<Link>) returns (links: seq<Link>)
    requires forall a :: a in L ==> a in V
    ensures links == links0 + LinksOf(V, L)
  {
    links := links0;
    for k := 0 to |L|
      invariant links == links0 + LinksOf(V, L[..k])
    {
      assert L[..k + 1][..k] == L[..k];
      var a := L[k];
      var ps := V[a].parents;
      ghost var before := links;
      for j := 0 to |ps|
        invariant links == before + ParentLinks(V, a, ps[..j])
      {
        assert ps[..j + 1][..j] == ps[..j];
        var b := ps[j];
        if V[a].show && b in V && V[b].show {
          links := links + [Link(a, b)];
        }
      }
      assert ps[..|ps|] == ps;
    }
    assert L[..|L|] == L;
  }

  /** `coords`, `stats` and `metric` of the locations `Ll`, in order. */
  function LocCoords(V: Arena, Ll: seq<nat>): seq<int>
    decreases |Ll|
  {
    if Ll == [] then [] else LocCoords(V, Ll[..|Ll| - 1]) + [LocCoord(V, Ll[|Ll| - 1])]
  }

  function LocStats(V: Arena, Ll: seq<nat>): seq<seq<nat>>
    decreases |Ll|
  {
    if Ll == [] then [] else LocStats(V, Ll[..|Ll| - 1]) + [LocStat(V, Ll[|Ll| - 1])]
  }

  function LocMetrics(V: Arena, Ll: seq<nat>): seq<seq<nat>>
    decreases |Ll|
  {
    if Ll == [] then [] else LocMetrics(V, Ll[..|Ll| - 1]) + [LocMetric(V, Ll[|Ll| - 1])]
  }

  /** One entry per location, each that location's own. */
  lemma {:induction false} LocListsAt(V: Arena, Ll: seq<nat>)
    ensures |LocCoords(V, Ll)| == |LocStats(V, Ll)| == |LocMetrics(V, Ll)| == |Ll|
    ensures forall i :: 0 <= i < |Ll| ==>
      LocCoords(V, Ll)[i] == LocCoord(V, Ll[i]) && LocStats(V, Ll)[i] == LocStat(V, Ll[i]) && LocMetrics(V, Ll)[i] == LocMetric(V, Ll[i])
    decreases |Ll|
  {
    if Ll != [] {
      LocListsAt(V, Ll[..|Ll| - 1]);
    }
  }

  /** The `coords`, `stats` and `metric` pushes of the `Ll` loop. */
  method LocFields(V: Arena, Ll: seq<nat>) returns (coords: seq<int>, stats: seq<seq<nat>>, metric: seq<seq<nat>>)
    ensures coords == LocCoords(V, Ll) && stats == LocStats(V, Ll) && metric == LocMetrics(V, Ll)
  {
    coords, stats, metric := [], [], [];
    for i := 0 to |Ll|
      invariant coords == LocCoords(V, Ll[..i]) && stats == LocStats(V, Ll[..i]) && metric == LocMetrics(V, Ll[..i])
    {
      assert Ll[..i + 1][..i] == Ll[..i];
      var l := Ll[i];
      coords := coords + [LocCoord(V, l)];
      stats := stats + [LocStat(V, l)];
      metric := metric + [LocMetric(V, l)];
    }
    assert Ll[..|Ll|] == Ll;
  }

  /** The message data for the step `step` laid out by `ids`, with the
      latest lists `L`. */
  function ReadyFor(V: Arena, step: nat, ids: Ids, L: Latest): Ready
    requires Readable(V, ids, L)
  {
    Ready(step, ids, Hidden(V, ids.prevLoc, ids.loc), LinksOf(V, L.ops + L.states + L.cliques + L.locs),
          LocCoords(V, L.locs), LocStats(V, L.locs), LocMetrics(V, L.locs))
  }

  /** `postReady(d)`: the message data for the step `step` laid out by
      `ids`, with the latest lists `L`. */
  method ReadyData(V: Arena, step: nat, ids: Ids, L: Latest) returns (r: Ready)
    requires Readable(V, ids, L)
    ensures r == ReadyFor(V, step, ids, L)
  {
    var hs := HideList(V, ids.prevLoc, ids.loc);
    // the four link loops walk `Lo`, `Ls`, `Lc` and `Ll` in turn
    var links := LinkList(V, L.ops + L.states + L.cliques + L.locs, []);
    var coords, stats, metric := LocFields(V, L.locs);
    r := Ready(step, ids, hs, links, coords, stats, metric);
  }

  /** The message reports the step and its tuple, hides exactly the un-shown
      ids of the step, links exactly the shown parent links of the latest
      lists, and gives each location its coordinate, `stat` and `metric`. */
  lemma ReadyForFields(V: Arena, step: nat, ids: Ids, L: Latest)
    requires Readable(V, ids, L)
    ensures var r := ReadyFor(V, step, ids, L);
      r.step == step && r.ids == ids &&
      (forall x :: x in r.hidden <==> ids.prevLoc < x <= ids.loc && !V[x].show) &&
      (forall l :: l in r.links <==>
         l.child in L.ops + L.states + L.cliques + L.locs && l.parent in V[l.child].parents && V[l.child].show && Shown(V, l.parent)) &&
      |r.coords| == |r.stats| == |r.metric| == |L.locs| &&
      forall i :: 0 <= i < |L.locs| ==>
        V[L.locs[i]].kind.Location? ==>
          r.coords[i] == V[L.locs[i]].kind.coord && r.stats[i] == V[L.locs[i]].kind.stat && r.metric[i] == V[L.locs[i]].kind.metric
  {
    HiddenExactly(V, ids.prevLoc, ids.loc);
    LocListsAt(V, L.locs);
    forall l ensures l in LinksOf(V, L.ops + L.states + L.cliques + L.locs) <==>
         l.child in L.ops + L.states + L.cliques + L.locs && l.parent in V[l.child].parents && V[l.child].show && Shown(V, l.parent)
    {
      LinksExactly(V, L.ops + L.states + L.cliques + L.locs, l);
    }
  }

  /** On the tuple's own lists every vertex the message reads is present
      when `V` holds every id up to `ids.loc`. */
  lemma LatestReadable(V: Arena, ids: Ids)
    requires Ordered(ids) && forall i :: 1 <= i <= ids.loc ==> i in V
    ensures Readable(V, ids, LatestOf(ids))
  {
    var L := LatestOf(ids);
    forall a | a in L.ops + L.states + L.cliques + L.locs ensures a in V {
      LatestPartitions(ids, a);
    }
  }
}
