/** `next` keeps the invariant of the trigraph: whether it throws, makes
    nothing, or makes a new step of three levels. */
module TrigraphStepShape {
  import opened SeqUtil
  import opened Factorials
  import opened EngineSetup
  import opened TrigraphGraph
  import opened TrigraphSpawn
  import opened TrigraphGrown
  import opened TrigraphPlace
  import opened TrigraphPlaced
  import opened TrigraphLayers
  import opened TrigraphStore
  import opened TrigraphStep

  /** What the first half of `next` needs of the stored trigraph. */
  lemma ShapeIds(st: Store)
    requires Shape(st)
    ensures IdsBelow(Sprout(st.V, [], [], st.id)) && Below(st.V)
    ensures forall k :: 0 <= k < |Level(st.L, st.level)| ==> Level(st.L, st.level)[k] <= st.id
  {
    forall k | 0 <= k < |Level(st.L, st.level)| ensures Level(st.L, st.level)[k] <= st.id {
      assert st.level in st.L;
      var x := st.L[st.level][k];
      assert x in st.L[st.level];
      assert x in st.V;
    }
  }

  /** The first half of `next` grows the stored vertices, and when it does
      not throw it makes operations exactly when it makes states. */
  lemma SpawnedGrown(st: Store, p: Params)
    requires Shape(st)
    ensures Grown(st.V, st.id, Spawned(st, p).sp)
    ensures Spawned(st, p).err.None? ==> Paired(Spawned(st, p).sp)
  {
    ShapeIds(st);
    if st.level == 0 {
      GrownFirst(st.V, st.id, p.init);
    } else {
      var sp := Sprout(st.V, [], [], st.id);
      GrownStart(st.V, st.id);
      GrownPhase(st.V, st.id, sp, Level(st.L, st.level), p.oper);
      PairedPhase(sp, Level(st.L, st.level), p.oper);
    }
  }

  /** A `next` that throws leaves the invariant intact: only child lists
      change and the counter grows. */
  lemma ThrownShape(st: Store, sp: Sprout)
    requires Shape(st) && Grown(st.V, st.id, sp)
    ensures Shape(st.(V := Restrict(sp.V, st.V), id := sp.id))
  {
    var V2 := Restrict(sp.V, st.V);
    var st2 := st.(V := V2, id := sp.id);
    assert forall x :: x in st.V ==> Kept(st.V[x], V2[x]);
    ThrownLayered(st, V2, sp.id);
    ThrownNumbered(st, V2, sp.id);
    SameSteps(st, st2);
  }

  /** The invariant's parts about steps and coordinates read no vertex. */
  lemma SameSteps(st: Store, st2: Store)
    requires Stepped(st) && Charted(st)
    requires st2.T == st.T && st2.S == st.S && st2.locs == st.locs && st2.level == st.level
    ensures Stepped(st2) && Charted(st2)
  {
  }

  lemma ThrownLayered(st: Store, V2: Vertices, id2: nat)
    requires Layered(st) && V2.Keys == st.V.Keys && forall x :: x in st.V ==> Kept(st.V[x], V2[x])
    ensures Layered(st.(V := V2, id := id2))
  {
  }

  lemma ThrownNumbered(st: Store, V2: Vertices, id2: nat)
    requires Numbered(st) && id2 >= st.id
    requires V2.Keys == st.V.Keys && forall x :: x in st.V ==> Kept(st.V[x], V2[x])
    ensures Numbered(st.(V := V2, id := id2))
  {
  }

  /** The location loop can start on the new states. */
  lemma StartReady(st: Store, run: Run)
    requires Shape(st) && Grown(st.V, st.id, run.sp)
    ensures Ready(run.sp.sts, StartSpace(st, run))
  {
    var V := run.sp.V;
    forall x | x in V
      ensures V[x].kind.State? && V[x].kind.location.Some? ==> V[x].kind.location.value < |st.locs|
    {
      if x in st.V {
        assert Kept(st.V[x], V[x]);
      }
    }
  }

  /** The trigraph after a `next` that made new states. */
  function Grew(st: Store, run: Run, sp: Space): Store {
    var l := st.level;
    Store(SetLevel(SetLevel(SetLevel(sp.V, run.sp.ops, l + 1), run.sp.sts, l + 2), sp.cls, l + 3),
          st.L[l + 1 := run.sp.ops][l + 2 := run.sp.sts][l + 3 := sp.cls],
          st.T[l / 3 + 1 := sp.T], sp.S, sp.locs, sp.id, l + 3, sp.memo)
  }

  /** What a `next` that made new states has to go on. */
  ghost predicate Growing(st: Store, run: Run, sp: Space) {
    Shape(st) && Grown(st.V, st.id, run.sp) && Paired(run.sp) && run.sp.sts != [] &&
    Placing(run.sp.sts, StartSpace(st, run), sp, [], run.sp.sts)
  }

  /** Where the vertices after the location loop come from: the stored
      ones, unchanged but for child lists and the location of the new
      states, and the new operations, states and cliques, with ids above
      the stored ones. */
  ghost predicate Sources(st: Store, run: Run, sp: Space) {
    var ops, sts, cls := run.sp.ops, run.sp.sts, sp.cls;
    (forall x :: x in sp.V <==> x in st.V || x in ops || x in sts || x in cls) &&
    (forall x :: x in st.V ==>
      x <= st.id && sp.V[x].level == st.V[x].level && sp.V[x].parents == st.V[x].parents &&
      sp.V[x].kind == st.V[x].kind) &&
    (forall x :: x in ops ==> st.id < x <= run.sp.id && x !in sts) &&
    (forall x :: x in sts ==> st.id < x <= run.sp.id) &&
    (forall x :: x in cls <==> run.sp.id < x <= sp.id) && st.id <= run.sp.id &&
    NoDup(ops) && NoDup(sts) && NoDup(cls) && ops != [] && sts != [] && cls != []
  }

  lemma OriginsKeys(st: Store, run: Run, sp: Space)
    requires Growing(st, run, sp)
    ensures var ops, sts, cls := run.sp.ops, run.sp.sts, sp.cls;
      (forall x :: x in sp.V <==> x in st.V || x in ops || x in sts || x in cls) &&
      (forall x :: x in ops ==> st.id < x <= run.sp.id && x !in sts) &&
      (forall x :: x in sts ==> st.id < x <= run.sp.id) &&
      (forall x :: x in cls <==> run.sp.id < x <= sp.id) && st.id <= run.sp.id &&
      NoDup(ops) && NoDup(sts) && NoDup(cls) && ops != [] && sts != [] && cls != []
  {
    var sp0 := StartSpace(st, run);
    KeysFrom(st.V, st.id, run.sp, sp0, sp);
    var x0 := run.sp.sts[0];
    assert x0 in run.sp.sts;
    assert sp.T != [];
  }

  lemma KeysFrom(V0: Vertices, id0: nat, rsp: Sprout, sp0: Space, sp: Space)
    requires Fresh(V0, id0, rsp) && Made(V0, id0, rsp) && sp0.V == rsp.V && sp0.id == rsp.id && Counted(sp0, sp)
    ensures forall x :: x in sp.V <==> x in V0 || x in rsp.ops || x in rsp.sts || x in sp.cls
    ensures forall x :: x in sp.cls <==> rsp.id < x <= sp.id
    ensures NoDup(sp.cls)
  {
    IdsFacts(rsp.id + 1, sp.id - rsp.id);
    forall x ensures x in sp.V <==> x in V0 || x in rsp.ops || x in rsp.sts || x in sp.cls {
      if x in rsp.ops || x in rsp.sts {
        assert x in rsp.V;
      }
    }
  }

  lemma OriginsKept(st: Store, run: Run, sp: Space)
    requires Growing(st, run, sp)
    ensures forall x :: x in st.V ==>
      x <= st.id && sp.V[x].level == st.V[x].level && sp.V[x].parents == st.V[x].parents &&
      sp.V[x].kind == st.V[x].kind
  {
    forall x | x in st.V
      ensures x <= st.id && sp.V[x].level == st.V[x].level && sp.V[x].parents == st.V[x].parents &&
        sp.V[x].kind == st.V[x].kind
    {
      assert Kept(st.V[x], run.sp.V[x]);
      assert x <= st.id;
      assert x !in run.sp.sts;
    }
  }

  lemma Origins(st: Store, run: Run, sp: Space)
    requires Growing(st, run, sp)
    ensures Sources(st, run, sp)
  {
    OriginsKeys(st, run, sp);
    OriginsKept(st, run, sp);
  }

  /** The new operations, states and cliques are new vertices, and none
      is listed twice. */
  ghost predicate Apart(st: Store, ops: seq<nat>, sts: seq<nat>, cls: seq<nat>) {
    ops != [] && sts != [] && cls != [] && NoDup(ops) && NoDup(sts) && NoDup(cls) &&
    (forall x :: x in ops ==> x !in st.V && x > st.id && x !in sts && x !in cls) &&
    (forall x :: x in sts ==> x !in st.V && x > st.id && x !in cls) &&
    (forall x :: x in cls ==> x !in st.V && x > st.id)
  }

  /** The vertices `V2` after stamping: the stored ones with their levels
      and the new lists on the three new levels. */
  ghost predicate Stacked(st: Store, V2: Vertices, ops: seq<nat>, sts: seq<nat>, cls: seq<nat>) {
    var l := st.level;
    (forall x :: x in V2 <==> x in st.V || x in ops || x in sts || x in cls) &&
    forall x :: x in V2 ==>
      V2[x].level == if x in st.V then st.V[x].level else if x in ops then l + 1 else if x in sts then l + 2 else l + 3
  }

  lemma SourcesApart(st: Store, run: Run, sp: Space)
    requires Sources(st, run, sp)
    ensures Apart(st, run.sp.ops, run.sp.sts, sp.cls)
  {
  }

  /** The vertices after stamping, as `SetLevelThree` describes them. */
  ghost predicate Restamped(st: Store, run: Run, sp: Space, W: Vertices) {
    var l, ops, sts, cls := st.level, run.sp.ops, run.sp.sts, sp.cls;
    W.Keys == sp.V.Keys &&
    forall x :: x in sp.V ==>
      W[x] == sp.V[x].(level := if x in cls then l + 3 else if x in sts then l + 2 else if x in ops then l + 1 else sp.V[x].level)
  }

  lemma GrewRestamped(st: Store, run: Run, sp: Space)
    ensures Restamped(st, run, sp, Grew(st, run, sp).V)
  {
    SetLevelThree(sp.V, run.sp.ops, run.sp.sts, sp.cls, st.level);
  }

  /** Stamping sets the levels of the new lists only. */
  lemma Stamped(st: Store, run: Run, sp: Space, W: Vertices)
    requires Sources(st, run, sp) && Restamped(st, run, sp, W)
    ensures Stacked(st, W, run.sp.ops, run.sp.sts, sp.cls)
    ensures forall x :: x in sp.V ==> x in W && W[x].parents == sp.V[x].parents && W[x].kind == sp.V[x].kind
  {
    var l, ops, sts, cls := st.level, run.sp.ops, run.sp.sts, sp.cls;
    SourcesApart(st, run, sp);
    forall x | x in W
      ensures W[x].level == if x in st.V then st.V[x].level else if x in ops then l + 1 else if x in sts then l + 2 else l + 3
    {
      StampedAt(st, run, sp, W, x);
    }
  }

  lemma StampedAt(st: Store, run: Run, sp: Space, W: Vertices, x: nat)
    requires Sources(st, run, sp) && Apart(st, run.sp.ops, run.sp.sts, sp.cls) && x in sp.V
    requires var ops, sts, cls, l := run.sp.ops, run.sp.sts, sp.cls, st.level;
      x in W && W[x].level == if x in cls then l + 3 else if x in sts then l + 2 else if x in ops then l + 1 else sp.V[x].level
    ensures var ops, sts, l := run.sp.ops, run.sp.sts, st.level;
      W[x].level == if x in st.V then st.V[x].level else if x in ops then l + 1 else if x in sts then l + 2 else l + 3
  {
  }

  /** What the new trigraph `st2` lists under the levels. */
  ghost predicate Relisted(st: Store, st2: Store, ops: seq<nat>, sts: seq<nat>, cls: seq<nat>) {
    st2.level == st.level + 3 && st2.L == st.L[st.level + 1 := ops][st.level + 2 := sts][st.level + 3 := cls]
  }

  /** The levels stay listed in `L`. */
  lemma GrewLayered(st: Store, st2: Store, ops: seq<nat>, sts: seq<nat>, cls: seq<nat>)
    requires Layered(st) && Apart(st, ops, sts, cls) && Stacked(st, st2.V, ops, sts, cls)
    requires Relisted(st, st2, ops, sts, cls)
    ensures Layered(st2)
  {
    LayeredKeys(st, st2, ops, sts, cls);
    forall k | k in st2.L ensures forall x :: x in st2.L[k] ==> x in st2.V && st2.V[x].level == k {
      forall x | x in st2.L[k] ensures x in st2.V && st2.V[x].level == k {
        LayeredListed(st, st2, ops, sts, cls, k, x);
      }
    }
    forall x | x in st2.V ensures 1 <= st2.V[x].level <= st2.level && x in st2.L[st2.V[x].level] {
      LayeredPlaced(st, st2, ops, sts, cls, x);
    }
  }

  lemma LayeredKeys(st: Store, st2: Store, ops: seq<nat>, sts: seq<nat>, cls: seq<nat>)
    requires Layered(st) && Apart(st, ops, sts, cls) && Relisted(st, st2, ops, sts, cls)
    ensures st2.level % 3 == 0 && forall l :: l in st2.L <==> 1 <= l <= st2.level
    ensures forall l :: l in st2.L ==> st2.L[l] != [] && NoDup(st2.L[l])
  {
  }

  lemma LayeredListed(st: Store, st2: Store, ops: seq<nat>, sts: seq<nat>, cls: seq<nat>, k: nat, x: nat)
    requires Layered(st) && Apart(st, ops, sts, cls) && Stacked(st, st2.V, ops, sts, cls)
    requires Relisted(st, st2, ops, sts, cls) && k in st2.L && x in st2.L[k]
    ensures x in st2.V && st2.V[x].level == k
  {
    var l := st.level;
    if k <= l {
      assert st2.L[k] == st.L[k];
    } else if k == l + 1 {
      assert x in ops;
    } else if k == l + 2 {
      assert x in sts;
    } else {
      assert x in cls;
    }
  }

  lemma LayeredPlaced(st: Store, st2: Store, ops: seq<nat>, sts: seq<nat>, cls: seq<nat>, x: nat)
    requires Layered(st) && Apart(st, ops, sts, cls) && Stacked(st, st2.V, ops, sts, cls)
    requires Relisted(st, st2, ops, sts, cls) && x in st2.V
    ensures 1 <= st2.V[x].level <= st2.level && x in st2.L[st2.V[x].level]
  {
    var l := st.level;
    if x in st.V {
      assert x in st.L[st.V[x].level];
      assert st2.L[st.V[x].level] == st.L[st.V[x].level];
    }
  }

  /** Ids stay below the counter and grow from step to step. */
  lemma GrewNumbered(st: Store, st2: Store, ops: seq<nat>, sts: seq<nat>, cls: seq<nat>)
    requires Layered(st) && Numbered(st) && Apart(st, ops, sts, cls) && Stacked(st, st2.V, ops, sts, cls)
    requires Below(st2.V) && (forall x :: x in st2.V ==> x <= st2.id)
    ensures Numbered(st2)
  {
    var l := st.level;
    forall x, y | x in st2.V && y in st2.V
      ensures StepOf(st2.V[x].level) < StepOf(st2.V[y].level) ==> x < y
    {
      if x in st.V && y in st.V {
      } else if x in st.V {
        assert st2.V[x].level <= l;
      } else {
        assert StepOf(st2.V[x].level) == l / 3 + 1;
        assert y in st.V ==> st2.V[y].level <= l;
      }
    }
  }

  /** The step's handles with coordinate `c`. */
  lemma {:induction false} AtCoordFacts(locs: seq<Location>, hs: seq<nat>, c: string)
    ensures forall h :: h in AtCoord(locs, hs, c) <==> h in hs && h < |locs| && locs[h].coordinate == c
    ensures NoDup(hs) ==> NoDup(AtCoord(locs, hs, c))
    decreases |hs|
  {
    if hs != [] {
      var pre, h := hs[..|hs| - 1], hs[|hs| - 1];
      AtCoordFacts(locs, pre, c);
      assert hs == pre + [h];
      if NoDup(hs) {
        assert h !in pre;
        NoDupAppend(AtCoord(locs, pre, c), if h < |locs| && locs[h].coordinate == c then [h] else []);
      }
    }
  }

  /** What the location loop did to the locations: the step's locations
      take the next handles, the older ones keep their coordinates, and
      each new one is appended to the list of its coordinate. */
  ghost predicate Relocated(st: Store, sp: Space) {
    |sp.locs| >= |st.locs| && NoDup(sp.T) && sp.T != [] &&
    (forall h :: h in sp.T <==> |st.locs| <= h < |sp.locs|) &&
    (forall h :: 0 <= h < |st.locs| ==> sp.locs[h].coordinate == st.locs[h].coordinate) &&
    (forall c :: c in sp.S <==> c in st.S || AtCoord(sp.locs, sp.T, c) != []) &&
    forall c :: c in sp.S ==> sp.S[c] == Get(st.S, c) + AtCoord(sp.locs, sp.T, c)
  }

  lemma Located(st: Store, run: Run, sp: Space)
    requires Growing(st, run, sp)
    ensures Relocated(st, sp)
  {
    var sp0 := StartSpace(st, run);
    IdsFacts(|st.locs|, |sp.locs| - |st.locs|);
    forall h | 0 <= h < |st.locs| ensures sp.locs[h].coordinate == st.locs[h].coordinate {
      assert SameClass(sp0.locs[h], sp.locs[h]);
    }
    var x0 := run.sp.sts[0];
    assert x0 in run.sp.sts;
  }

  /** What the new trigraph `st2` records of the steps and coordinates. */
  ghost predicate Relaid(st: Store, st2: Store, sp: Space) {
    st2.level == st.level + 3 && st2.T == st.T[st.level / 3 + 1 := sp.T] && st2.S == sp.S && st2.locs == sp.locs
  }

  /** The steps keep their locations, each listed under its coordinate. */
  lemma GrewStepped(st: Store, st2: Store, sp: Space)
    requires Stepped(st) && Relocated(st, sp) && Relaid(st, st2, sp)
    ensures Stepped(st2)
  {
    var k0 := st.level / 3 + 1;
    forall k, h | k in st2.T && h in st2.T[k]
      ensures h < |st2.locs| && st2.locs[h].coordinate in st2.S && h in st2.S[st2.locs[h].coordinate]
    {
      var c := st2.locs[h].coordinate;
      if k == k0 {
        AtCoordFacts(sp.locs, sp.T, c);
        assert h in AtCoord(sp.locs, sp.T, c);
      } else {
        OldHandle(st, st2, sp, k, h);
        assert h in st.S[st.locs[h].coordinate];
        assert Get(st.S, c) == st.S[c];
      }
    }
    forall k, k', h | k in st2.T && k' in st2.T && h in st2.T[k] && h in st2.T[k'] ensures k == k' {
      if k != k0 {
        OldHandle(st, st2, sp, k, h);
      }
      if k' != k0 {
        OldHandle(st, st2, sp, k', h);
      }
    }
  }

  /** A location of an older step sits below the step's new ones. */
  lemma OldHandle(st: Store, st2: Store, sp: Space, k: nat, h: nat)
    requires Stepped(st) && Relaid(st, st2, sp)
    requires k in st2.T && k != st.level / 3 + 1 && h in st2.T[k]
    ensures k in st.T && h in st.T[k] && h < |st.locs|
  {
  }

  /** Every coordinate still lists recorded locations with that coordinate,
      once each. */
  lemma GrewCharted(st: Store, st2: Store, sp: Space)
    requires Stepped(st) && Charted(st) && Relocated(st, sp) && Relaid(st, st2, sp)
    ensures Charted(st2)
  {
    var k0 := st.level / 3 + 1;
    forall c | c in st2.S
      ensures st2.S[c] != [] && NoDup(st2.S[c]) &&
        forall h :: h in st2.S[c] ==> h < |st2.locs| && st2.locs[h].coordinate == c && h in Recorded(st2.T)
    {
      AtCoordFacts(sp.locs, sp.T, c);
      var before := Get(st.S, c);
      var added := AtCoord(sp.locs, sp.T, c);
      assert forall h :: h in before ==> h < |st.locs|;
      NoDupAppend(before, added);
      forall h | h in st2.S[c] ensures h < |st2.locs| && st2.locs[h].coordinate == c && h in Recorded(st2.T) {
        if h in added {
          assert k0 in st2.T && h in st2.T[k0];
        } else {
          assert h in before;
          assert h in Recorded(st.T);
          var k :| k in st.T && h in st.T[k];
          assert k in st2.T && h in st2.T[k];
        }
      }
    }
  }

  lemma GrewLayeredOf(st: Store, run: Run, sp: Space)
    requires Layered(st) && Sources(st, run, sp)
    ensures Layered(Grew(st, run, sp))
  {
    SourcesApart(st, run, sp);
    GrewRestamped(st, run, sp);
    Stamped(st, run, sp, Grew(st, run, sp).V);
    GrewLayered(st, Grew(st, run, sp), run.sp.ops, run.sp.sts, sp.cls);
  }

  lemma GrewNumberedOf(st: Store, run: Run, sp: Space)
    requires Layered(st) && Numbered(st) && Sources(st, run, sp)
    requires Below(sp.V) && forall x :: x in sp.V ==> x <= sp.id
    ensures Numbered(Grew(st, run, sp)) && HandlesBelow(Grew(st, run, sp).V, |sp.locs|) == HandlesBelow(sp.V, |sp.locs|)
  {
    var st2 := Grew(st, run, sp);
    SourcesApart(st, run, sp);
    GrewRestamped(st, run, sp);
    Stamped(st, run, sp, st2.V);
    GrewNumbered(st, st2, run.sp.ops, run.sp.sts, sp.cls);
  }

  /** What the location loop leaves that the invariant needs. */
  ghost predicate Outgrown(st: Store, run: Run, sp: Space) {
    Sources(st, run, sp) && Relocated(st, sp) && Below(sp.V) && (forall x :: x in sp.V ==> x <= sp.id) &&
    HandlesBelow(sp.V, |sp.locs|) && MemoFromOne(sp.memo)
  }

  lemma GrowingOutgrown(st: Store, run: Run, sp: Space)
    requires Growing(st, run, sp)
    ensures Outgrown(st, run, sp)
  {
    Origins(st, run, sp);
    Located(st, run, sp);
    assert Handled(StartSpace(st, run), sp);
  }

  /** A `next` that made new states keeps the invariant. */
  lemma GrewShape(st: Store, run: Run, sp: Space)
    requires Growing(st, run, sp)
    ensures Shape(Grew(st, run, sp))
  {
    GrowingOutgrown(st, run, sp);
    OutgrownShape(st, run, sp);
  }

  lemma OutgrownShape(st: Store, run: Run, sp: Space)
    requires Shape(st) && Outgrown(st, run, sp)
    ensures Shape(Grew(st, run, sp))
  {
    var st2 := Grew(st, run, sp);
    GrewLayeredOf(st, run, sp);
    GrewNumberedOf(st, run, sp);
    GrewStepped(st, st2, sp);
    GrewCharted(st, st2, sp);
  }
}
