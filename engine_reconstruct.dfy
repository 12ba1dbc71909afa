/** `reconstruct()` of both engines: drop every vertex above the last step's
    location bound and rebuild the four lists of the latest step from its id
    tuple. In the model the lists `Lo`, `Ls`, `Lc` and `Ll` hold vertex ids;
    the source holds the vertex objects, which `V.get(id)` returns for the
    same ids. */
module EngineReconstruct {
  import opened SeqUtil
  import opened Layout
  import opened EngineCore
  import opened EngineCliques

  /** `V` without the ids above `top`. */
  function Cut(V: Arena, top: nat): Arena {
    map i | i in V && i <= top :: V[i]
  }

  /** `while (id > top) { V.delete(id); id--; }` */
  method Truncate(V0: Arena, id0: nat, top: nat) returns (V: Arena, id: nat)
    ensures id == if id0 > top then top else id0
    ensures forall i :: i in V <==> i in V0 && !(top < i <= id0)
    ensures forall i :: i in V ==> V[i] == V0[i]
  {
    V, id := V0, id0;
    while id > top
      invariant top <= id <= id0 || id == id0
      invariant forall i :: i in V <==> i in V0 && !(id < i <= id0)
      invariant forall i :: i in V ==> V[i] == V0[i]
    {
      V := V - {id};
      id := id - 1;
    }
  }

  /** On a dense arena the truncation is the cut at `top`, which is dense
      up to `top`. */
  lemma TruncateIsCut(V0: Arena, id0: nat, top: nat, V: Arena)
    requires Dense(V0, id0) && top <= id0
    requires forall i :: i in V <==> i in V0 && !(top < i <= id0)
    requires forall i :: i in V ==> V[i] == V0[i]
    ensures V == Cut(V0, top) && Dense(V, top)
  {
  }

  /** Prev undoes a step: when `V` keeps every vertex of the dense `V0` and
      only adds ids above `id0`, cutting at `id0` gives `V0` back. */
  lemma CutUndoesStep(V0: Arena, id0: nat, V: Arena, id: nat)
    requires Dense(V0, id0) && Dense(V, id) && id0 <= id
    requires forall i :: i in V0 ==> i in V && V[i] == V0[i]
    ensures Cut(V, id0) == V0
  {
  }

  /** Cutting keeps parents below their children. */
  lemma CutBelow(V: Arena, top: nat)
    requires Below(V)
    ensures Below(Cut(V, top))
  {
  }

  /** The ids `lo+1..hi` (none when `hi <= lo`). */
  function Span(lo: nat, hi: nat): (r: seq<nat>)
    ensures |r| == if hi > lo then hi - lo else 0
    ensures forall k :: 0 <= k < |r| ==> r[k] == lo + k + 1
    ensures forall x :: x in r <==> lo < x <= hi
  {
    var r := IdSeq(lo, if hi > lo then hi - lo else 0);
    IdSeqMembers(r, lo, hi);
    r
  }

  lemma IdSeqMembers(r: seq<nat>, lo: nat, hi: nat)
    requires |r| == (if hi > lo then hi - lo else 0) && forall k :: 0 <= k < |r| ==> r[k] == lo + k + 1
    ensures forall x :: x in r <==> lo < x <= hi
  {
    forall x | lo < x <= hi ensures x in r {
      assert r[x - lo - 1] == x;
    }
  }

  /** `for (let i = lo+1; i <= hi; i++) L.push(V.get(i))`. */
  method RangeList(lo: nat, hi: nat) returns (L: seq<nat>)
    ensures forall x :: x in L <==> lo < x <= hi
    ensures forall a, b :: 0 <= a < b < |L| ==> L[a] < L[b]
    ensures L == Span(lo, hi)
  {
    L := [];
    var i := lo + 1;
    while i <= hi
      invariant lo + 1 <= i <= if hi > lo then hi + 1 else lo + 1
      invariant L == Span(lo, i - 1)
    {
      assert Span(lo, i - 1) + [i] == Span(lo, i);
      L := L + [i];
      i := i + 1;
    }
  }

  /** The four lists of the latest step. */
  datatype Latest = Latest(ops: seq<nat>, states: seq<nat>, cliques: seq<nat>, locs: seq<nat>)

  /** The lists that `ids` lays out. */
  function LatestOf(ids: Ids): Latest {
    Latest(Span(ids.prevLoc, ids.oper), Span(ids.oper, ids.state), Span(ids.state, ids.clique), Span(ids.clique, ids.loc))
  }

  /** `reconstruct()` with `ids` the last tuple of `IDS`: the truncation,
      then the four loops. */
  method Reconstruct(V0: Arena, id0: nat, ids: Ids) returns (V: Arena, id: nat, L: Latest)
    ensures id == if id0 > ids.loc then ids.loc else id0
    ensures forall i :: i in V <==> i in V0 && !(ids.loc < i <= id0)
    ensures forall i :: i in V ==> V[i] == V0[i]
    ensures L == LatestOf(ids)
  {
    V, id := Truncate(V0, id0, ids.loc);
    var lo := RangeList(ids.prevLoc, ids.oper);
    var ls := RangeList(ids.oper, ids.state);
    var lc := RangeList(ids.state, ids.clique);
    var ll := RangeList(ids.clique, ids.loc);
    L := Latest(lo, ls, lc, ll);
  }

  /** An ordered tuple splits `prevLoc+1..loc` into its four lists: every id
      of the range is in exactly one of them. */
  lemma LatestPartitions(ids: Ids, x: nat)
    requires Ordered(ids)
    ensures var L := LatestOf(ids);
      (ids.prevLoc < x <= ids.loc <==> x in L.ops + L.states + L.cliques + L.locs) &&
      (x in L.ops ==> x !in L.states + L.cliques + L.locs) &&
      (x in L.states ==> x !in L.cliques + L.locs) &&
      (x in L.cliques ==> x !in L.locs)
  {
    var L := LatestOf(ids);
    assert x in L.ops <==> ids.prevLoc < x <= ids.oper;
    assert x in L.states <==> ids.oper < x <= ids.state;
    assert x in L.cliques <==> ids.state < x <= ids.clique;
    assert x in L.locs <==> ids.clique < x <= ids.loc;
  }
}
