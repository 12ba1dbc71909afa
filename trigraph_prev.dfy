/** `prev()` of `modules/Trigraph.mjs` on the trigraph as a value: the loop
    that takes the last step's locations out of `S`, the do-while loop that
    deletes the levels down to the previous clique level, and the clean-up
    of the layer left on top. */
module TrigraphPrev {
  import opened SeqUtil
  import opened TrigraphGraph
  import opened TrigraphStore
  import opened TrigraphStep
  import opened TrigraphRetreat
  import opened TrigraphRetreatShape

  /** `T.forEach(c => { space.splice(space.indexOf(c), 1); ... })`. */
  method UnchartLoop(S0: map<string, seq<nat>>, locs: seq<Location>, hs: seq<nat>) returns (S: map<string, seq<nat>>)
    ensures S == Unchart(S0, locs, hs)
  {
    S := S0;
    var i := 0;
    while i < |hs|
      invariant 0 <= i <= |hs| && S == Unchart(S0, locs, hs[..i])
    {
      assert hs[..i + 1][..i] == hs[..i];
      var h := hs[i];
      if h < |locs| && locs[h].coordinate in S {
        var c := locs[h].coordinate;
        var s := Splice(S[c], h);
        if s == [] {
          S := S - {c};
        } else {
          S := S[c := s];
        }
      }
      i := i + 1;
    }
    assert hs[..|hs|] == hs;
  }

  /** `X.forEach(v => { V.delete(v.id); id--; })`: every vertex of the list
      leaves the map and the counter drops once per vertex. */
  method DropLevel(V0: Vertices, id0: nat, X: seq<nat>) returns (V: Vertices, id: nat)
    requires NoDup(X) && |X| <= id0
    ensures V == V0 - Elems(X) && id + |X| == id0
  {
    V, id := V0, id0;
    var j := 0;
    while j < |X|
      invariant 0 <= j <= |X| && V == V0 - Elems(X[..j]) && id + j == id0
    {
      assert Elems(X[..j + 1]) == Elems(X[..j]) + {X[j]};
      V := V - {X[j]};
      id := id - 1;
      j := j + 1;
    }
    assert X[..|X|] == X;
  }

  /** The vertices above level `lev - 1` are those above `lev` and those
      listed at `lev`. */
  lemma {:induction false} GoneSplit(st: Store, lev: nat)
    requires Layered(st) && 1 <= lev <= st.level
    ensures Gone(st.V, lev - 1) == Gone(st.V, lev) + Elems(st.L[lev])
    ensures |Gone(st.V, lev - 1)| == |Gone(st.V, lev)| + |st.L[lev]|
  {
    GoneSplitBy(st.V, st.L[lev], lev);
  }

  lemma GoneSplitBy(V: Vertices, X: seq<nat>, lev: nat)
    requires 1 <= lev && NoDup(X)
    requires forall x :: x in X ==> x in V && V[x].level == lev
    requires forall x :: x in V && V[x].level == lev ==> x in X
    ensures Gone(V, lev - 1) == Gone(V, lev) + Elems(X)
    ensures |Gone(V, lev - 1)| == |Gone(V, lev)| + |X|
  {
    assert Gone(V, lev) !! Elems(X);
    NoDupCard(X);
  }

  /** Fewer vertices lie above a higher level. */
  lemma GoneShrinks(V: Vertices, a: nat, b: nat)
    requires a <= b
    ensures |Gone(V, b)| <= |Gone(V, a)|
  {
    SubsetCard(Gone(V, b), Gone(V, a));
  }

  /** Below a multiple of three, the levels of the step are the ones that
      are not. */
  lemma StepLevels(top: nat, lev: nat)
    requires top % 3 == 0 && top >= 3 && top - 3 <= lev < top
    ensures lev % 3 != 0 <==> lev > top - 3
  {
    var k := top / 3;
    assert top == 3 * k;
    if lev == top - 3 {
      assert lev == 3 * (k - 1);
    } else if lev == top - 2 {
      assert lev == 3 * (k - 1) + 1;
    } else {
      assert lev == 3 * (k - 1) + 2;
    }
  }

  /** The level lists up to level `l`. */
  function ListsUpto(L: map<nat, seq<nat>>, l: nat): (r: map<nat, seq<nat>>)
    ensures forall j :: j in r <==> j in L && j <= l
  {
    map j | j in L && j <= l :: L[j]
  }

  /** Deleting the list of the top level kept leaves the levels below it. */
  lemma DropStep(st: Store, level: nat)
    requires Layered(st) && 1 <= level <= st.level
    ensures Upto(st.V, level) - Elems(st.L[level]) == Upto(st.V, level - 1)
    ensures ListsUpto(st.L, level) - {level} == ListsUpto(st.L, level - 1)
  {
    DropVertices(st.V, st.L[level], level);
    DropList(st.L, level);
  }

  /** Taking the vertices listed at `level` out of those up to it leaves
      those up to `level - 1`, when the list holds exactly that level. */
  lemma DropVertices(V: Vertices, X: seq<nat>, level: nat)
    requires 1 <= level
    requires forall x :: x in X ==> x in V && V[x].level == level
    requires forall x :: x in V && V[x].level == level ==> x in X
    ensures Upto(V, level) - Elems(X) == Upto(V, level - 1)
  {
    var V', W := Upto(V, level) - Elems(X), Upto(V, level - 1);
    forall x ensures x in V' <==> x in W {
      if x in V && V[x].level == level {
        assert x in X;
      }
    }
  }

  lemma DropList(L: map<nat, seq<nat>>, level: nat)
    requires 1 <= level
    ensures ListsUpto(L, level) - {level} == ListsUpto(L, level - 1)
  {
  }

  /** What each level of the step `prev()` deletes contributes: its list,
      without duplicates, holds exactly the vertices of that level. */
  ghost predicate Droppable(st: Store, l: nat) {
    forall lev :: l < lev <= st.level ==>
      lev in st.L && NoDup(st.L[lev]) &&
      Upto(st.V, lev) - Elems(st.L[lev]) == Upto(st.V, lev - 1) &&
      ListsUpto(st.L, lev) - {lev} == ListsUpto(st.L, lev - 1) &&
      |Gone(st.V, lev - 1)| == |Gone(st.V, lev)| + |st.L[lev]|
  }

  lemma LayeredDroppable(st: Store, l: nat)
    requires Layered(st)
    ensures Droppable(st, l)
    ensures Upto(st.V, st.level) == st.V && ListsUpto(st.L, st.level) == st.L
  {
    forall lev | l < lev <= st.level
      ensures lev in st.L && NoDup(st.L[lev]) &&
        Upto(st.V, lev) - Elems(st.L[lev]) == Upto(st.V, lev - 1) &&
        ListsUpto(st.L, lev) - {lev} == ListsUpto(st.L, lev - 1) &&
        |Gone(st.V, lev - 1)| == |Gone(st.V, lev)| + |st.L[lev]|
    {
      GoneSplit(st, lev);
      DropStep(st, lev);
    }
  }

  /** The do-while loop of `prev()`: from the top level down to the
      previous clique level, each level's list is deleted with its vertices,
      one counter decrement per vertex. */
  method DropLevels(st: Store) returns (V: Vertices, L: map<nat, seq<nat>>, id: nat)
    requires st.level > 3 && st.level % 3 == 0 && Droppable(st, st.level - 3)
    requires Upto(st.V, st.level) == st.V && ListsUpto(st.L, st.level) == st.L
    requires |Gone(st.V, st.level - 3)| <= st.id
    ensures V == Upto(st.V, st.level - 3)
    ensures L == ListsUpto(st.L, st.level - 3)
    ensures id + |Gone(st.V, st.level - 3)| == st.id
  {
    ghost var l := st.level - 3;
    GoneShrinks(st.V, l, st.level);
    var level;
    V, L, id, level := st.V, st.L, st.id, st.level;
    var more := true;
    while more
      invariant l <= level <= st.level && more == (level > l)
      invariant V == Upto(st.V, level) && L == ListsUpto(st.L, level)
      invariant id + |Gone(st.V, level)| == st.id
      decreases level
    {
      var X := L[level];
      GoneShrinks(st.V, l, level - 1);
      V, id := DropLevel(V, id, X);
      L := L - {level};
      level := level - 1;
      StepLevels(st.level, level);
      more := level % 3 != 0;
    }
  }

  /** The pieces `prev()` assembles make up `Retreat`. */
  lemma AssembledRetreat(st: Store, S: map<string, seq<nat>>, T: map<nat, seq<nat>>, V: Vertices,
                          L: map<nat, seq<nat>>, below: seq<nat>, id: nat, gone: nat)
    requires st.level > 3 && id + gone == st.id
    requires S == Unchart(st.S, st.locs, Level(st.T, st.level / 3)) && T == st.T - {st.level / 3}
    requires V == Upto(st.V, st.level - 3) && L == ListsUpto(st.L, st.level - 3)
    requires below == Level(T, (st.level - 3) / 3)
    ensures Store(Bare(V, Level(L, st.level - 3)), L, T, S, BareLocs(st.locs, below), id, st.level - 3, st.memo)
            == RetreatBy(st, gone)
  {
    var l := st.level - 3;
    LevelUpto(st.L, l);
    LevelWithout(st.T, st.level / 3, l / 3);
  }

  /** On a clique level, `getStep` is the exact quotient by three, and so
      it is on the clique level one step below. */
  lemma StepsAround(level: nat)
    requires level % 3 == 0 && level > 3
    ensures GetStep(level, 0) == level / 3 && GetStep(level - 3, 0) == (level - 3) / 3
  {
  }

  lemma LevelUpto(L: map<nat, seq<nat>>, l: nat)
    ensures Level(ListsUpto(L, l), l) == Level(L, l)
  {
  }

  lemma LevelWithout(T: map<nat, seq<nat>>, t: nat, k: nat)
    requires k != t
    ensures Level(T - {t}, k) == Level(T, k)
  {
  }

  /** The work of `prev()` past the first step: unchart the step's
      locations, delete its three levels and their vertices, and clear the
      children of the layer and the locations left on top. */
  method Undo(st: Store) returns (st2: Store)
    requires Shape(st) && st.level > 3
    ensures st2 == Retreat(st)
  {
    StepsAround(st.level);
    var step := GetStep(st.level, 0);
    var S := UnchartLoop(st.S, st.locs, Level(st.T, step));
    var T := st.T - {step};
    GoneBound(st);
    LayeredDroppable(st, st.level - 3);
    var V, L, id := DropLevels(st);
    var below := Level(T, GetStep(st.level - 3, 0));
    ghost var gone := |Gone(st.V, st.level - 3)|;
    AssembledRetreat(st, S, T, V, L, below, id, gone);
    st2 := Store(Bare(V, Level(L, st.level - 3)), L, T, S, BareLocs(st.locs, below), id, st.level - 3, st.memo);
  }

  /** `prev()`: nothing changes and the answer is false up to the first
      step's level 3; otherwise the step's locations leave `S` and `T`, its
      three levels are deleted, the layer left on top and its step's
      locations lose their children, and the answer says whether yet
      another step could be undone. */
  method Prev(st: Store) returns (st2: Store, more: bool)
    requires Shape(st)
    ensures Shape(st2)
    ensures st.level <= 3 ==> st2 == st && !more
    ensures st.level > 3 ==> st2 == Retreat(st) && more == (st2.level > 3)
    ensures st.level > 3 ==> Kept(st, st2) && Lowered(st, st2) && Uncharted(st, st2)
  {
    if st.level <= 3 {
      return st, false;
    }
    st2 := Undo(st);
    more := st2.level > 3;
    RetreatKept(st);
    RetreatLowered(st);
    RetreatUncharted(st);
    RetreatShape(st);
  }
}
