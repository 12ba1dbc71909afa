/** What `prev` in `modules/Trigraph.mjs` does to the trigraph: the
    locations of the last step leave `S` and `T`, the three levels of the
    step and their vertices go, and the clique layer left on top and the
    locations of its step lose their children. */
module TrigraphRetreat {
  import opened SeqUtil
  import opened TrigraphGraph
  import opened TrigraphStore
  import opened TrigraphStep

  // ---- `space.splice(space.indexOf(c), 1)` ----

  /** `s.splice(s.indexOf(h), 1)`: the first occurrence of `h` goes; for a
      missing `h` the index is -1 and the last element goes instead. */
  function Splice(s: seq<nat>, h: nat): (r: seq<nat>)
    ensures h in s ==> |r| == |s| - 1 && (forall x :: x in r ==> x in s) && (forall x :: x in s && x != h ==> x in r)
    ensures h in s && NoDup(s) ==> NoDup(r) && h !in r
    ensures h !in s && s != [] ==> r + [s[|s| - 1]] == s
    ensures s == [] ==> r == []
  {
    if h in s then RemoveFirst(s, h)
    else if s == [] then []
    else s[..|s| - 1]
  }

  /** The loop over the step's locations: each leaves the list of its
      coordinate, and a list left empty is deleted. A coordinate with no
      list would make the source throw; it is left alone here and the
      invariant rules it out. */
  function Unchart(S: map<string, seq<nat>>, locs: seq<Location>, hs: seq<nat>): map<string, seq<nat>>
    decreases |hs|
  {
    if hs == [] then S
    else UnchartOne(Unchart(S, locs, hs[..|hs| - 1]), locs, hs[|hs| - 1])
  }

  /** One round of that loop, for the location with handle `h`. */
  function UnchartOne(S: map<string, seq<nat>>, locs: seq<Location>, h: nat): map<string, seq<nat>> {
    if h < |locs| && locs[h].coordinate in S then
      var c := locs[h].coordinate;
      var s := Splice(S[c], h);
      if s == [] then S - {c} else S[c := s]
    else S
  }

  /** Filtering out nothing keeps the list. */
  lemma {:induction false} WithoutNone(s: seq<nat>)
    ensures Without(s, []) == s
    decreases |s|
  {
    if s != [] {
      WithoutNone(s[1..]);
      assert s == [s[0]] + s[1..];
    }
  }

  /** Filtering out one more value that does not occur changes nothing. */
  lemma {:induction false} WithoutAbsent(s: seq<nat>, t: seq<nat>, h: nat)
    requires h !in s
    ensures Without(s, t + [h]) == Without(s, t)
    decreases |s|
  {
    if s != [] {
      WithoutAbsent(s[1..], t, h);
      assert s[0] in t + [h] <==> s[0] in t;
    }
  }

  /** In a list without duplicates, splicing out a value that is left is
      filtering it out. */
  lemma {:induction false} WithoutRemove(s: seq<nat>, t: seq<nat>, h: nat)
    requires NoDup(s) && h in s && h !in t
    ensures RemoveFirst(Without(s, t), h) == Without(s, t + [h])
    decreases |s|
  {
    var a, s' := s[0], s[1..];
    assert s == [a] + s';
    assert NoDup(s');
    var W' := Without(s', t);
    if a == h {
      assert h !in s';
      assert Without(s, t) == [h] + W';
      WithoutAbsent(s', t, h);
      assert Without(s, t + [h]) == Without(s', t + [h]);
    } else {
      assert h in s';
      WithoutRemove(s', t, h);
      assert a in t + [h] <==> a in t;
      if a !in t {
        assert Without(s, t) == [a] + W';
        assert ([a] + W')[1..] == W';
        assert Without(s, t + [h]) == [a] + Without(s', t + [h]);
      } else {
        assert Without(s, t) == W';
        assert Without(s, t + [h]) == Without(s', t + [h]);
      }
    }
  }

  /** The location lists each handle of `hs` lies in. */
  ghost predicate Listed(S: map<string, seq<nat>>, locs: seq<Location>, hs: seq<nat>) {
    forall h :: h in hs ==> h < |locs| && locs[h].coordinate in S && h in S[locs[h].coordinate]
  }

  /** Non-empty lists without duplicates, each of locations with its
      coordinate. */
  ghost predicate Filed(S: map<string, seq<nat>>, locs: seq<Location>) {
    forall c :: c in S ==> S[c] != [] && NoDup(S[c]) && forall h :: h in S[c] ==> h < |locs| && locs[h].coordinate == c
  }

  /** One round of the splice loop, for a location listed under `c` only. */
  lemma SpliceStep(S: map<string, seq<nat>>, S': map<string, seq<nat>>, pre: seq<nat>, h: nat, c: string)
    requires c in S && NoDup(S[c]) && h in S[c] && h !in pre
    requires forall d :: d in S && d != c ==> h !in S[d]
    requires forall d :: d in S' <==> d in S && Without(S[d], pre) != []
    requires forall d :: d in S' ==> S'[d] == Without(S[d], pre)
    ensures c in S'
    ensures var s := Splice(S'[c], h); var R := if s == [] then S' - {c} else S'[c := s];
      (forall d :: d in R <==> d in S && Without(S[d], pre + [h]) != []) &&
      (forall d :: d in R ==> R[d] == Without(S[d], pre + [h]))
  {
    WithoutRemove(S[c], pre, h);
    assert h in Without(S[c], pre);
    var s := Splice(S'[c], h);
    assert s == Without(S[c], pre + [h]);
    var R := if s == [] then S' - {c} else S'[c := s];
    forall d ensures (d in R <==> d in S && Without(S[d], pre + [h]) != []) &&
                     (d in R ==> R[d] == Without(S[d], pre + [h])) {
      if d != c {
        assert (d in R <==> d in S') && (d in R ==> R[d] == S'[d]);
        SpliceKeep(S, S', R, pre, h, d);
      }
    }
  }

  /** A coordinate other than the location's keeps its list. */
  lemma SpliceKeep(S: map<string, seq<nat>>, S': map<string, seq<nat>>, R: map<string, seq<nat>>, pre: seq<nat>, h: nat, d: string)
    requires d in S ==> h !in S[d]
    requires (d in S' <==> d in S && Without(S[d], pre) != []) && (d in S' ==> S'[d] == Without(S[d], pre))
    requires (d in R <==> d in S') && (d in R ==> R[d] == S'[d])
    ensures d in R <==> d in S && Without(S[d], pre + [h]) != []
    ensures d in R ==> R[d] == Without(S[d], pre + [h])
  {
    if d in S {
      WithoutAbsent(S[d], pre, h);
    }
  }

  /** Under the invariant, the splice loop removes exactly the step's
      locations from every list and drops the coordinates left with none. */
  lemma {:induction false} UnchartWithout(S: map<string, seq<nat>>, locs: seq<Location>, hs: seq<nat>)
    requires NoDup(hs) && Listed(S, locs, hs) && Filed(S, locs)
    ensures forall c :: c in Unchart(S, locs, hs) <==> c in S && Without(S[c], hs) != []
    ensures forall c :: c in Unchart(S, locs, hs) ==> Unchart(S, locs, hs)[c] == Without(S[c], hs)
    decreases |hs|
  {
    if hs == [] {
      forall d | d in S ensures Without(S[d], hs) == S[d] {
        WithoutNone(S[d]);
      }
    } else {
      var pre, h := hs[..|hs| - 1], hs[|hs| - 1];
      assert hs == pre + [h];
      assert NoDup(pre) && h !in pre && h in hs;
      assert Listed(S, locs, pre) by {
        forall x | x in pre ensures x in hs { }
      }
      UnchartWithout(S, locs, pre);
      var c := locs[h].coordinate;
      forall d | d in S && d != c ensures h !in S[d] {
      }
      UnchartStep(S, locs, pre, h, c);
    }
  }

  /** One more round of the splice loop, given what the earlier rounds did. */
  lemma UnchartStep(S: map<string, seq<nat>>, locs: seq<Location>, pre: seq<nat>, h: nat, c: string)
    requires h < |locs| && c == locs[h].coordinate
    requires c in S && NoDup(S[c]) && h in S[c] && h !in pre
    requires forall d :: d in S && d != c ==> h !in S[d]
    requires forall d :: d in Unchart(S, locs, pre) <==> d in S && Without(S[d], pre) != []
    requires forall d :: d in Unchart(S, locs, pre) ==> Unchart(S, locs, pre)[d] == Without(S[d], pre)
    ensures forall d :: d in Unchart(S, locs, pre + [h]) <==> d in S && Without(S[d], pre + [h]) != []
    ensures forall d :: d in Unchart(S, locs, pre + [h]) ==> Unchart(S, locs, pre + [h])[d] == Without(S[d], pre + [h])
  {
    var S' := Unchart(S, locs, pre);
    SpliceStep(S, S', pre, h, c);
    assert (pre + [h])[..|pre + [h]| - 1] == pre;
    assert Unchart(S, locs, pre + [h]) == UnchartOne(S', locs, h);
  }

  // ---- the levels that go ----

  /** The vertices at or below level `l`. */
  function Upto(V: Vertices, l: nat): (r: Vertices)
    ensures forall x :: x in r <==> x in V && V[x].level <= l
  {
    map x | x in V && V[x].level <= l :: V[x]
  }

  /** The vertices above level `l`: those `prev` deletes. */
  ghost function Gone(V: Vertices, l: nat): set<nat> {
    set x | x in V && V[x].level > l
  }

  /** `L.forEach(v => v.child.length = 0)`. */
  function Bare(V: Vertices, n: seq<nat>): (r: Vertices)
    ensures r.Keys == V.Keys
  {
    map x | x in V :: if x in n then V[x].(children := []) else V[x]
  }

  /** `T.forEach(c => c.child.length = 0)`. */
  function BareLocs(locs: seq<Location>, hs: seq<nat>): (r: seq<Location>)
    ensures |r| == |locs|
  {
    seq(|locs|, i requires 0 <= i < |locs| => if i in hs then locs[i].(children := []) else locs[i])
  }

  lemma SubsetCard(A: set<nat>, B: set<nat>)
    requires A <= B
    ensures |A| <= |B|
  {
    assert B == A + (B - A);
  }

  /** A vertex of an earlier step has a smaller id than every vertex of the
      last step, and none is above the counter: the deleted ids lie
      between. */
  lemma KeptBelowGone(st: Store, x: nat)
    requires Shape(st) && st.level > 3 && x in st.V && st.V[x].level <= st.level - 3
    ensures x + |Gone(st.V, st.level - 3)| <= st.id
  {
    var G := Gone(st.V, st.level - 3);
    forall y | y in G ensures x < y <= st.id {
      StepsApart(st.level, st.V[x].level, st.V[y].level);
    }
    SubsetCard(G, IdRange(x + 1, st.id));
    IdRangeCard(x + 1, st.id);
  }

  /** A level at or below the clique level `top - 3` belongs to an earlier
      step than one above it. */
  lemma StepsApart(top: nat, lx: nat, ly: nat)
    requires top % 3 == 0 && top > 3 && lx <= top - 3 < ly <= top
    ensures StepOf(lx) < StepOf(ly)
  {
  }

  /** No more vertices go than the counter has handed out. */
  lemma GoneBound(st: Store)
    requires Shape(st) && st.level > 3
    ensures |Gone(st.V, st.level - 3)| <= st.id
  {
    var x := st.L[1][0];
    KeptBelowGone(st, x);
  }

  /** The trigraph after `prev` on a trigraph past its first step. */
  ghost function Retreat(st: Store): Store
    requires Shape(st) && st.level > 3
  {
    GoneBound(st);
    RetreatBy(st, |Gone(st.V, st.level - 3)|)
  }

  /** `Retreat` with the number of deleted vertices given. */
  ghost function RetreatBy(st: Store, gone: nat): Store
    requires st.level > 3 && gone <= st.id
  {
    var l := st.level - 3;
    Store(Bare(Upto(st.V, l), Level(st.L, l)),
          map j | j in st.L && j <= l :: st.L[j],
          st.T - {st.level / 3},
          Unchart(st.S, st.locs, Level(st.T, st.level / 3)),
          BareLocs(st.locs, Level(st.T, l / 3)),
          st.id - gone, l, st.memo)
  }
}
