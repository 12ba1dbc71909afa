/** What holds of the vertices after the first half of `next`, however far
    it got before a possible exception: the stored vertices keep their
    level, parents and kind (only their child lists grow); every new vertex
    has an id above the counter the step started from, and is a new
    operation or a new state; new states have not been given a location
    yet and sit under a new operation. */
module TrigraphGrown {
  import opened SeqUtil
  import opened EngineOper
  import opened EngineSetup
  import opened TrigraphGraph
  import opened TrigraphSpawn
  import opened TrigraphGrowth

  /** `b` is `a` with at most its child list changed. */
  predicate Kept(a: Vertex, b: Vertex) {
    b.level == a.level && b.parents == a.parents && b.kind == a.kind
  }

  /** `i` is an operation made by this step. */
  ghost predicate NewOp(V: Vertices, i: nat) {
    i in V && V[i].level == 0 && V[i].kind == Operation
  }

  /** `i` is a state made by this step, under one of its operations. */
  ghost predicate NewState(V: Vertices, ops: seq<nat>, i: nat) {
    i in V && V[i].level == 0 && V[i].kind.State? && V[i].kind.location == None &&
    V[i].children == [] && |V[i].parents| == 1 && V[i].parents[0] in ops
  }

  /** The ids of `sp` are the stored ones and those above `id0`. */
  ghost predicate Fresh(V0: Vertices, id0: nat, sp: Sprout) {
    (forall i :: i in V0 ==> i <= id0) && id0 <= sp.id &&
    (forall i :: i in sp.V <==> i in V0 || id0 < i <= sp.id)
  }

  /** Every stored vertex is still there, with at most its child list
      changed. */
  ghost predicate KeptAll(V0: Vertices, V: Vertices) {
    forall i :: i in V0 ==> i in V && Kept(V0[i], V[i])
  }

  /** Every new vertex is listed once, as a new operation or a new state. */
  ghost predicate Made(V0: Vertices, id0: nat, sp: Sprout) {
    (forall i :: i in sp.V && i !in V0 ==> i in sp.ops || i in sp.sts) &&
    NoDup(sp.ops) && NoDup(sp.sts) &&
    (forall i :: i in sp.ops ==> id0 < i <= sp.id && i !in sp.sts && NewOp(sp.V, i)) &&
    (forall i :: i in sp.sts ==> id0 < i <= sp.id && NewState(sp.V, sp.ops, i))
  }

  /** `sp` grew from the stored vertices `V0` and the counter `id0`. */
  ghost predicate Grown(V0: Vertices, id0: nat, sp: Sprout) {
    Fresh(V0, id0, sp) && Below(sp.V) && KeptAll(V0, sp.V) && Made(V0, id0, sp)
  }

  /** Before the step nothing has grown. */
  lemma GrownStart(V0: Vertices, id0: nat)
    requires Below(V0) && forall i :: i in V0 ==> i <= id0
    ensures Grown(V0, id0, Sprout(V0, [], [], id0))
  {
  }

  /** The root operation. */
  lemma GrownRoot(V0: Vertices, id0: nat, sp: Sprout)
    requires Grown(V0, id0, sp)
    ensures Grown(V0, id0, Root(sp))
  {
    var r := Root(sp);
    assert Fresh(V0, id0, r);
    assert KeptAll(V0, r.V);
    assert Below(r.V);
    OpMade(V0, id0, sp, r);
  }

  /** A new operation under a stored clique. */
  lemma GrownOp(V0: Vertices, id0: nat, sp: Sprout, c: nat)
    requires Grown(V0, id0, sp) && c <= id0
    ensures Grown(V0, id0, AddOp(sp, c))
  {
    var r := AddOp(sp, c);
    assert Fresh(V0, id0, r);
    assert KeptAll(V0, r.V);
    assert Below(r.V);
    assert c !in sp.ops && c !in sp.sts;
    OpMade(V0, id0, sp, r);
  }

  /** An operation with the next id, where nothing else changes but child
      lists, keeps every new vertex listed once. */
  lemma OpMade(V0: Vertices, id0: nat, sp: Sprout, r: Sprout)
    requires Grown(V0, id0, sp) && r.id == sp.id + 1 && r.ops == sp.ops + [r.id] && r.sts == sp.sts
    requires forall i :: i in r.V <==> i in sp.V || i == r.id
    requires forall i :: i in sp.ops + sp.sts ==> r.V[i] == sp.V[i]
    requires NewOp(r.V, r.id)
    ensures Made(V0, id0, r)
  {
    NoDupAppend(sp.ops, [r.id]);
    forall i | i in r.ops ensures id0 < i <= r.id && i !in r.sts && NewOp(r.V, i) {
      if i != r.id {
        assert i in sp.ops + sp.sts;
      }
    }
    forall i | i in r.sts ensures id0 < i <= r.id && NewState(r.V, r.ops, i) {
      assert i in sp.ops + sp.sts;
    }
  }

  /** The ids `a` to `a + n - 1` occur once each. */
  lemma IdsFacts(a: nat, n: nat)
    ensures NoDup(Ids(a, n)) && forall i :: i in Ids(a, n) <==> a <= i < a + n
  {
    forall i | a <= i < a + n ensures i in Ids(a, n) {
      assert Ids(a, n)[i - a] == i;
    }
  }

  /** The states of a new operation. */
  lemma GrownStates(V0: Vertices, id0: nat, sp: Sprout, xs: seq<int>)
    requires Grown(V0, id0, sp) && sp.id in sp.ops
    ensures Grown(V0, id0, AddStates(sp, sp.id, xs))
  {
    StatesFresh(V0, id0, sp, xs);
    StatesKept(V0, id0, sp, xs);
    StatesBelow(V0, id0, sp, xs);
    StatesMade(V0, id0, sp, xs);
  }

  lemma StatesFresh(V0: Vertices, id0: nat, sp: Sprout, xs: seq<int>)
    requires Grown(V0, id0, sp) && sp.id in sp.ops
    ensures Fresh(V0, id0, AddStates(sp, sp.id, xs))
  {
    AddStatesFacts(sp, sp.id, xs);
  }

  lemma StatesKept(V0: Vertices, id0: nat, sp: Sprout, xs: seq<int>)
    requires Grown(V0, id0, sp) && sp.id in sp.ops
    ensures KeptAll(V0, AddStates(sp, sp.id, xs).V)
  {
    AddStatesFacts(sp, sp.id, xs);
    assert sp.id !in V0;
  }

  lemma StatesBelow(V0: Vertices, id0: nat, sp: Sprout, xs: seq<int>)
    requires Grown(V0, id0, sp) && sp.id in sp.ops
    ensures Below(AddStates(sp, sp.id, xs).V)
  {
    var o := sp.id;
    var r := AddStates(sp, o, xs);
    AddStatesFacts(sp, o, xs);
    forall i, k | i in r.V && 0 <= k < |r.V[i].parents| ensures r.V[i].parents[k] < i {
      if i !in sp.V {
        var j := i - sp.id - 1;
        assert 0 <= j < |xs| && sp.id + 1 + j == i;
        assert r.V[sp.id + 1 + j] == Vertex(0, [o], [], State(xs[j], None));
      }
    }
  }

  lemma StatesMade(V0: Vertices, id0: nat, sp: Sprout, xs: seq<int>)
    requires Grown(V0, id0, sp) && sp.id in sp.ops
    ensures Made(V0, id0, AddStates(sp, sp.id, xs))
  {
    StatesListed(V0, id0, sp, xs);
    StatesNew(V0, id0, sp, xs);
    StatesOps(V0, id0, sp, xs);
  }

  lemma StatesListed(V0: Vertices, id0: nat, sp: Sprout, xs: seq<int>)
    requires Grown(V0, id0, sp) && sp.id in sp.ops
    ensures var r := AddStates(sp, sp.id, xs);
      NoDup(r.sts) && forall i :: i in r.V && i !in V0 ==> i in r.ops || i in r.sts
  {
    var ids := Ids(sp.id + 1, |xs|);
    AddStatesFacts(sp, sp.id, xs);
    IdsFacts(sp.id + 1, |xs|);
    NoDupAppend(sp.sts, ids);
  }

  lemma StatesNew(V0: Vertices, id0: nat, sp: Sprout, xs: seq<int>)
    requires Grown(V0, id0, sp) && sp.id in sp.ops
    ensures var r := AddStates(sp, sp.id, xs);
      forall i :: i in r.sts ==> id0 < i <= r.id && NewState(r.V, r.ops, i)
  {
    var o := sp.id;
    var r := AddStates(sp, o, xs);
    AddStatesFacts(sp, o, xs);
    IdsFacts(sp.id + 1, |xs|);
    forall i | i in r.sts ensures id0 < i <= r.id && NewState(r.V, r.ops, i) {
      if i !in sp.sts {
        var k := i - sp.id - 1;
        assert r.V[sp.id + 1 + k] == Vertex(0, [o], [], State(xs[k], None));
      }
    }
  }

  lemma StatesOps(V0: Vertices, id0: nat, sp: Sprout, xs: seq<int>)
    requires Grown(V0, id0, sp) && sp.id in sp.ops
    ensures var r := AddStates(sp, sp.id, xs);
      forall i :: i in r.ops ==> id0 < i <= r.id && i !in r.sts && NewOp(r.V, i)
  {
    AddStatesFacts(sp, sp.id, xs);
    IdsFacts(sp.id + 1, |xs|);
  }

  /** One entry of the reply of `oper`. */
  lemma GrownSpawnOp(V0: Vertices, id0: nat, sp: Sprout, c: nat, r: OpReply)
    requires Grown(V0, id0, sp) && c <= id0
    ensures Grown(V0, id0, SpawnOp(sp, c, r).sp)
  {
    if r.States? && r.states != [] {
      GrownOp(V0, id0, sp, c);
      GrownStates(V0, id0, AddOp(sp, c), r.states);
    }
  }

  /** The whole reply of `oper` for one clique. */
  lemma {:induction false} GrownSpawnOps(V0: Vertices, id0: nat, sp: Sprout, c: nat, nos: seq<OpReply>)
    requires Grown(V0, id0, sp) && c <= id0
    ensures Grown(V0, id0, SpawnOps(sp, c, nos).sp)
    decreases |nos|
  {
    if nos != [] {
      var r := SpawnOps(sp, c, nos[..|nos| - 1]);
      GrownSpawnOps(V0, id0, sp, c, nos[..|nos| - 1]);
      if r.err.None? {
        GrownSpawnOp(V0, id0, r.sp, c, nos[|nos| - 1]);
      }
    }
  }

  /** The whole oper phase over stored cliques. */
  lemma {:induction false} GrownPhase(V0: Vertices, id0: nat, sp: Sprout, C: seq<nat>, oper: seq<int> -> OperReply)
    requires Grown(V0, id0, sp) && forall k :: 0 <= k < |C| ==> C[k] <= id0
    ensures Grown(V0, id0, OperatorPhase(sp, C, oper).sp)
    decreases |C|
  {
    if C != [] {
      var r := OperatorPhase(sp, C[..|C| - 1], oper);
      GrownPhase(V0, id0, sp, C[..|C| - 1], oper);
      if r.err.None? {
        var c := C[|C| - 1];
        match oper(CliqueValues(r.sp.V, c))
        case NotArray =>
        case Ops(nos) => GrownSpawnOps(V0, id0, r.sp, c, nos);
      }
    }
  }

  /** The first step, whether or not it throws. */
  lemma GrownFirst(V0: Vertices, id0: nat, init: InitReply)
    requires Below(V0) && forall i :: i in V0 ==> i <= id0
    ensures Grown(V0, id0, FirstStep(V0, id0, init).sp)
  {
    var sp := Sprout(V0, [], [], id0);
    GrownStart(V0, id0);
    GrownRoot(V0, id0, sp);
    if init.InitStates? && init.states != [] {
      GrownStates(V0, id0, Root(sp), init.states);
    }
  }

  /** No operation is made without at least one state. */
  predicate Paired(sp: Sprout) {
    (sp.ops == []) == (sp.sts == [])
  }

  lemma PairedSpawnOp(sp: Sprout, c: nat, r: OpReply)
    requires Paired(sp)
    ensures Paired(SpawnOp(sp, c, r).sp)
  {
  }

  lemma {:induction false} PairedSpawnOps(sp: Sprout, c: nat, nos: seq<OpReply>)
    requires Paired(sp)
    ensures Paired(SpawnOps(sp, c, nos).sp)
    decreases |nos|
  {
    if nos != [] {
      var r := SpawnOps(sp, c, nos[..|nos| - 1]);
      PairedSpawnOps(sp, c, nos[..|nos| - 1]);
      if r.err.None? {
        PairedSpawnOp(r.sp, c, nos[|nos| - 1]);
      }
    }
  }

  /** The oper phase makes operations exactly when it makes states. */
  lemma {:induction false} PairedPhase(sp: Sprout, C: seq<nat>, oper: seq<int> -> OperReply)
    requires Paired(sp)
    ensures Paired(OperatorPhase(sp, C, oper).sp)
    decreases |C|
  {
    if C != [] {
      var r := OperatorPhase(sp, C[..|C| - 1], oper);
      PairedPhase(sp, C[..|C| - 1], oper);
      if r.err.None? {
        var c := C[|C| - 1];
        match oper(CliqueValues(r.sp.V, c))
        case NotArray =>
        case Ops(nos) => PairedSpawnOps(r.sp, c, nos);
      }
    }
  }
}
