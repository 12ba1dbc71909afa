/** The end of `next` in `modules/Trigraph.mjs`: each non-empty list of new
    vertices (operations, states, cliques) becomes the next level, its
    vertices stamped with that level and the list stored under it in `L`;
    an empty list adds no level. */
module TrigraphLayers {
  import opened TrigraphGraph

  /** `n.forEach(v => v.level = lev)`. */
  function SetLevel(V: Vertices, n: seq<nat>, lev: nat): Vertices
    decreases |n|
  {
    if n == [] then V
    else
      var V' := SetLevel(V, n[..|n| - 1], lev);
      var x := n[|n| - 1];
      if x in V' then V'[x := V'[x].(level := lev)] else V'
  }

  /** Stamping changes the level of the listed vertices and nothing else. */
  lemma {:induction false} SetLevelAt(V: Vertices, n: seq<nat>, lev: nat)
    ensures SetLevel(V, n, lev).Keys == V.Keys
    ensures forall x :: x in V ==>
      SetLevel(V, n, lev)[x] == if x in n then V[x].(level := lev) else V[x]
    decreases |n|
  {
    if n != [] {
      SetLevelAt(V, n[..|n| - 1], lev);
      forall x | x in V ensures x in n <==> x in n[..|n| - 1] || x == n[|n| - 1] {
        assert n == n[..|n| - 1] + [n[|n| - 1]];
      }
    }
  }

  /** Three lists stamped one after the other: a vertex in several takes
      the level of the last. */
  lemma SetLevelThree(V: Vertices, a: seq<nat>, b: seq<nat>, c: seq<nat>, l: nat)
    ensures var W := SetLevel(SetLevel(SetLevel(V, a, l + 1), b, l + 2), c, l + 3);
      W.Keys == V.Keys &&
      forall x :: x in V ==>
        W[x] == V[x].(level := if x in c then l + 3 else if x in b then l + 2 else if x in a then l + 1 else V[x].level)
  {
    var V1 := SetLevel(V, a, l + 1);
    var V2 := SetLevel(V1, b, l + 2);
    SetLevelAt(V, a, l + 1);
    SetLevelAt(V1, b, l + 2);
    SetLevelAt(V2, c, l + 3);
  }

  /** The vertices, `L` and the level after the lists `N` are stored, in
      order. */
  function Stamp(V: Vertices, L: map<nat, seq<nat>>, level: nat, N: seq<seq<nat>>): (Vertices, map<nat, seq<nat>>, nat)
    decreases |N|
  {
    if N == [] then (V, L, level)
    else
      var (V', L', l') := Stamp(V, L, level, N[..|N| - 1]);
      var n := N[|N| - 1];
      if n == [] then (V', L', l') else (SetLevel(V', n, l' + 1), L'[l' + 1 := n], l' + 1)
  }

  /** With no new vertices at all, nothing changes. */
  lemma {:induction false} StampNone(V: Vertices, L: map<nat, seq<nat>>, level: nat, N: seq<seq<nat>>)
    requires forall i :: 0 <= i < |N| ==> N[i] == []
    ensures Stamp(V, L, level, N) == (V, L, level)
    decreases |N|
  {
    if N != [] {
      StampNone(V, L, level, N[..|N| - 1]);
    }
  }

  /** New operations, states and cliques make three new levels. */
  lemma StampThree(V: Vertices, L: map<nat, seq<nat>>, level: nat, ops: seq<nat>, sts: seq<nat>, cls: seq<nat>)
    requires ops != [] && sts != [] && cls != []
    ensures Stamp(V, L, level, [ops, sts, cls]) ==
      (SetLevel(SetLevel(SetLevel(V, ops, level + 1), sts, level + 2), cls, level + 3),
       L[level + 1 := ops][level + 2 := sts][level + 3 := cls], level + 3)
  {
    var N := [ops, sts, cls];
    assert N[..2][..1] == [ops] && N[..2] == [ops, sts];
    assert [ops][..0] == [];
    var V1 := SetLevel(V, ops, level + 1);
    var V2 := SetLevel(V1, sts, level + 2);
    assert Stamp(V, L, level, [ops]) == (V1, L[level + 1 := ops], level + 1);
    assert Stamp(V, L, level, [ops, sts]) == (V2, L[level + 1 := ops][level + 2 := sts], level + 2);
  }

  /** `n.forEach(v => { v.level = lev; this.V.set(v.id, v) })`. */
  method StampList(V0: Vertices, n: seq<nat>, lev: nat) returns (V: Vertices)
    ensures V == SetLevel(V0, n, lev)
  {
    V := V0;
    var i := 0;
    while i < |n|
      invariant 0 <= i <= |n| && V == SetLevel(V0, n[..i], lev)
    {
      assert n[..i + 1][..i] == n[..i];
      var x := n[i];
      if x in V {
        V := V[x := V[x].(level := lev)];
      }
      i := i + 1;
    }
    assert n[..|n|] == n;
  }

  /** `N.forEach(n => { if (n.length) { this.level++; ... } })`. */
  method StampLayers(V0: Vertices, L0: map<nat, seq<nat>>, level0: nat, N: seq<seq<nat>>)
    returns (V: Vertices, L: map<nat, seq<nat>>, level: nat)
    ensures (V, L, level) == Stamp(V0, L0, level0, N)
  {
    V, L, level := V0, L0, level0;
    var i := 0;
    while i < |N|
      invariant 0 <= i <= |N| && (V, L, level) == Stamp(V0, L0, level0, N[..i])
    {
      assert N[..i + 1][..i] == N[..i];
      var n := N[i];
      if n != [] {
        level := level + 1;
        V := StampList(V, n, level);
        L := L[level := n];
      }
      i := i + 1;
    }
    assert N[..|N|] == N;
  }
}
