/** What the first half of `next` makes: the ids the new vertices take,
    their parents and children, and the vertices it leaves alone. */
module TrigraphGrowth {
  import opened SeqUtil
  import opened EngineOper
  import opened EngineSetup
  import opened TrigraphGraph
  import opened TrigraphSpawn

  /** Once an entry throws, the later entries are not looked at. */
  lemma {:induction false} OpsStopped(sp: Sprout, c: nat, nos: seq<OpReply>, j: nat)
    requires 0 < j <= |nos| && SpawnOps(sp, c, nos[..j]).err.Some?
    ensures SpawnOps(sp, c, nos) == SpawnOps(sp, c, nos[..j])
    decreases |nos| - j
  {
    if j < |nos| {
      assert nos[..j + 1][..j] == nos[..j];
      OpsStopped(sp, c, nos, j + 1);
    } else {
      assert nos[..j] == nos;
    }
  }

  /** Once a clique throws, the later cliques are not looked at. */
  lemma {:induction false} PhaseStopped(sp: Sprout, C: seq<nat>, oper: seq<int> -> OperReply, i: nat)
    requires 0 < i <= |C| && OperatorPhase(sp, C[..i], oper).err.Some?
    ensures OperatorPhase(sp, C, oper) == OperatorPhase(sp, C[..i], oper)
    decreases |C| - i
  {
    if i < |C| {
      assert C[..i + 1][..i] == C[..i];
      PhaseStopped(sp, C, oper, i + 1);
    } else {
      assert C[..i] == C;
    }
  }

  // ---- what the phase makes ----

  /** One more state extends the states of an operation. */
  lemma {:induction false} AddStatesSnoc(sp: Sprout, o: nat, xs: seq<int>, x: int)
    requires o in sp.V && o <= sp.id && forall i :: i in sp.V ==> i <= sp.id
    ensures AddState(AddStates(sp, o, xs), o, x) == AddStates(sp, o, xs + [x])
  {
    var n: nat, u: nat := |xs|, sp.id + |xs| + 1;
    var c0 := sp.V[o].children;
    var N0, N1 := NewStates(o, sp.id + 1, xs), NewStates(o, sp.id + 1, xs + [x]);
    NewStatesSnoc(o, sp.id + 1, xs, x);
    assert o !in N0;
    var V0: Vertices := sp.V[o := sp.V[o].(children := c0 + Ids(sp.id + 1, n))];
    assert AddStates(sp, o, xs).V == V0 + N0;
    assert Ids(sp.id + 1, n) + [u] == Ids(sp.id + 1, n + 1);
    assert (c0 + Ids(sp.id + 1, n)) + [u] == c0 + Ids(sp.id + 1, n + 1);
    var V1: Vertices := sp.V[o := sp.V[o].(children := c0 + Ids(sp.id + 1, n + 1))];
    assert (V0 + N0)[o := V0[o].(children := V0[o].children + [u])] == V1 + N0;
    var w := Vertex(0, [o], [], State(x, None));
    assert (V1 + N0)[u := w] == V1 + N1;
    var r0 := AddStates(sp, o, xs);
    assert o in r0.V && r0.id + 1 == u;
    assert AddState(r0, o, x).V == (V1 + N0)[u := w];
    assert AddStates(sp, o, xs + [x]).V == V1 + N1;
  }

  /** One more value adds one state with the next id. */
  lemma {:induction false} NewStatesSnoc(o: nat, a: nat, xs: seq<int>, x: int)
    ensures NewStates(o, a, xs + [x]) == NewStates(o, a, xs)[a + |xs| := Vertex(0, [o], [], State(x, None))]
  {
    assert (xs + [x])[..|xs|] == xs;
  }

  /** The state made for value `xs[k]`. */
  lemma {:induction false} NewStateAt(o: nat, a: nat, xs: seq<int>, k: nat)
    requires k < |xs|
    ensures a + k in NewStates(o, a, xs) && NewStates(o, a, xs)[a + k] == Vertex(0, [o], [], State(xs[k], None))
    decreases |xs|
  {
    if k < |xs| - 1 {
      NewStateAt(o, a, xs[..|xs| - 1], k);
    }
  }

  /** The states of one operation take the next ids, in the order of their
      values, and are appended to the operation's children, each with the
      operation as its only parent; no other vertex changes. */
  lemma {:induction false} AddStatesFacts(sp: Sprout, o: nat, xs: seq<int>)
    requires o in sp.V && o <= sp.id && IdsBelow(sp)
    ensures var r := AddStates(sp, o, xs);
      r.id == sp.id + |xs| && r.ops == sp.ops && r.sts == sp.sts + Ids(sp.id + 1, |xs|) &&
      (forall i :: i in r.V <==> i in sp.V || sp.id < i <= r.id) &&
      r.V[o] == sp.V[o].(children := sp.V[o].children + Ids(sp.id + 1, |xs|)) &&
      (forall i :: i in sp.V && i != o ==> r.V[i] == sp.V[i]) &&
      (forall k :: 0 <= k < |xs| ==> r.V[sp.id + 1 + k] == Vertex(0, [o], [], State(xs[k], None)))
  {
    var r := AddStates(sp, o, xs);
    forall k | 0 <= k < |xs| ensures r.V[sp.id + 1 + k] == Vertex(0, [o], [], State(xs[k], None)) {
      NewStateAt(o, sp.id + 1, xs, k);
    }
  }

  /** An initial reply that is not an array, or is empty, throws a
      `TypeError` once the root's id is taken; nothing else changes. */
  lemma {:induction false} FirstStepThrows(V: Vertices, id0: nat, init: InitReply)
    requires IdsBelow(Sprout(V, [], [], id0)) && (init.InitNotArray? || init == InitStates([]))
    ensures var run := FirstStep(V, id0, init);
      run.err == Some(TypeError(if init.InitNotArray? then "INITIAL STATE was not an array." else "INITIAL STATE was empty.")) &&
      run.sp.id == id0 + 1 && forall i :: i in V ==> i in run.sp.V && run.sp.V[i] == V[i]
  {
  }

  /** A first step that does not throw makes the root operation with the
      next id and one state per initial value with the ids after it. */
  lemma {:induction false} FirstStepIds(V: Vertices, id0: nat, xs: seq<int>)
    requires IdsBelow(Sprout(V, [], [], id0)) && xs != []
    ensures var run := FirstStep(V, id0, InitStates(xs));
      run.err == None && run.sp.id == id0 + 1 + |xs| &&
      run.sp.ops == [id0 + 1] && run.sp.sts == Ids(id0 + 2, |xs|)
  {
    assert [] + Ids(id0 + 2, |xs|) == Ids(id0 + 2, |xs|);
  }

  /** The vertices after the first step are the stored ones and the new
      ids. */
  lemma {:induction false} FirstStepKeys(V: Vertices, id0: nat, xs: seq<int>)
    requires IdsBelow(Sprout(V, [], [], id0)) && xs != []
    ensures var run := FirstStep(V, id0, InitStates(xs));
      forall i :: i in run.sp.V <==> i in V || id0 < i <= id0 + 1 + |xs|
  {
    var sp := Root(Sprout(V, [], [], id0));
    AddStatesFacts(sp, id0 + 1, xs);
  }

  /** The root operation has no parents and the initial states as its
      children, in order. */
  lemma {:induction false} FirstStepRoot(V: Vertices, id0: nat, xs: seq<int>)
    requires IdsBelow(Sprout(V, [], [], id0)) && xs != []
    ensures var run := FirstStep(V, id0, InitStates(xs));
      id0 + 1 in run.sp.V && run.sp.V[id0 + 1] == Vertex(0, [], Ids(id0 + 2, |xs|), Operation)
  {
    var sp := Root(Sprout(V, [], [], id0));
    AddStatesFacts(sp, id0 + 1, xs);
    assert [] + Ids(id0 + 2, |xs|) == Ids(id0 + 2, |xs|);
  }

  /** Each initial state has the root as its only parent and holds its
      initial value. */
  lemma {:induction false} FirstStepStates(V: Vertices, id0: nat, xs: seq<int>)
    requires IdsBelow(Sprout(V, [], [], id0)) && xs != []
    ensures var run := FirstStep(V, id0, InitStates(xs));
      forall k :: 0 <= k < |xs| ==> id0 + 2 + k in run.sp.V && run.sp.V[id0 + 2 + k] == Vertex(0, [id0 + 1], [], State(xs[k], None))
  {
    var sp := Root(Sprout(V, [], [], id0));
    AddStatesFacts(sp, id0 + 1, xs);
  }

  /** The first step leaves the stored vertices alone. */
  lemma {:induction false} FirstStepKeeps(V: Vertices, id0: nat, xs: seq<int>)
    requires IdsBelow(Sprout(V, [], [], id0)) && xs != []
    ensures var run := FirstStep(V, id0, InitStates(xs));
      forall i :: i in V ==> i in run.sp.V && run.sp.V[i] == V[i]
  {
    var sp := Root(Sprout(V, [], [], id0));
    AddStatesFacts(sp, id0 + 1, xs);
  }
}
