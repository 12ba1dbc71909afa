/** The id layout every step of the engines shares, and the parent links its
    mirrors replay. */
module Layout {

  /** One entry of `IDS`: `[prev loc max, oper max, state max, clique max,
      loc max]`. A step's operations get the ids `prevLoc+1..oper`, its
      states `oper+1..state`, its cliques `state+1..clique` and its
      locations `clique+1..loc`. */
  datatype Ids = Ids(prevLoc: nat, oper: nat, state: nat, clique: nat, loc: nat)

  /** The five bounds do not decrease. */
  predicate Ordered(ids: Ids) {
    ids.prevLoc <= ids.oper <= ids.state <= ids.clique <= ids.loc
  }

  /** A link `[l[0], l[1]]` of a mirror message: `l[1]` becomes a parent
      of `l[0]`. */
  datatype Link = Link(child: nat, parent: nat)

  /** The parent ids that `links` assigns to `v`, in order. */
  function ParentsFrom(links: seq<Link>, v: nat): seq<nat> {
    if links == [] then []
    else (if links[0].child == v then [links[0].parent] else []) + ParentsFrom(links[1..], v)
  }

  /** Every element of `ParentsFrom(links, v)` comes from a link of `v`. */
  lemma {:induction false} ParentsFromLinks(links: seq<Link>, v: nat)
    ensures forall p :: p in ParentsFrom(links, v) ==> exists k :: 0 <= k < |links| && links[k] == Link(v, p)
  {
    if links != [] {
      ParentsFromLinks(links[1..], v);
      forall p | p in ParentsFrom(links, v)
        ensures exists k :: 0 <= k < |links| && links[k] == Link(v, p)
      {
        if !(links[0].child == v && p == links[0].parent) {
          assert p in ParentsFrom(links[1..], v);
          var k :| 0 <= k < |links[1..]| && links[1..][k] == Link(v, p);
          assert links[k + 1] == Link(v, p);
        }
      }
    }
  }

  /** Every link's parent is among the parents `links` assigns its child. */
  lemma {:induction false} ParentsFromHas(links: seq<Link>, k: nat)
    requires k < |links|
    ensures links[k].parent in ParentsFrom(links, links[k].child)
  {
    if k > 0 {
      assert links[1..][k - 1] == links[k];
      ParentsFromHas(links[1..], k - 1);
    }
  }

  /** A vertex that no link names as its child gets no parents. */
  lemma {:induction false} ParentsFromNone(links: seq<Link>, v: nat)
    requires forall k :: 0 <= k < |links| ==> links[k].child != v
    ensures ParentsFrom(links, v) == []
  {
    if links != [] {
      assert forall k :: 0 <= k < |links[1..]| ==> links[1..][k] == links[k + 1];
      ParentsFromNone(links[1..], v);
    }
  }
}
