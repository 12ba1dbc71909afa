/** `next()` of `modules/Trigraph.mjs` in observer mode 0, on the trigraph
    as a value. */
module TrigraphNext {
  import opened EngineOper
  import opened TrigraphGraph
  import opened TrigraphSpawn
  import opened TrigraphSpawnLoops
  import opened TrigraphGrown
  import opened TrigraphPlaced
  import opened TrigraphLocate
  import opened TrigraphLayers
  import opened TrigraphStore
  import opened TrigraphStep
  import opened TrigraphStepShape

  /** A `next` that made nothing leaves the invariant intact. */
  lemma IdleShape(st: Store, sp: Sprout)
    requires Shape(st) && Grown(st.V, st.id, sp) && sp.ops == [] && sp.sts == []
    ensures Shape(st.(V := sp.V, id := sp.id))
  {
    assert sp.V == Restrict(sp.V, st.V);
    ThrownShape(st, sp);
  }

  /** A `next` whose first half threw. */
  lemma ThrownOutcome(st: Store, p: Params, run: Run)
    requires Shape(st) && run == TrigraphStep.Spawned(st, p) && run.err.Some?
    ensures var st2 := st.(V := Restrict(run.sp.V, st.V), id := run.sp.id);
      Shape(st2) && NextOutcome(st, p, st2, Threw(run.err.value), run, StartSpace(st, run))
  {
    SpawnedGrown(st, p);
    ThrownShape(st, run.sp);
  }

  /** A `next` that made no new state. */
  lemma IdleOutcome(st: Store, p: Params, run: Run, sp: Space, st2: Store)
    requires Shape(st) && run == TrigraphStep.Spawned(st, p) && run.err.None? && run.sp.sts == []
    requires Placing([], StartSpace(st, run), sp, [], []) && sp == StartSpace(st, run)
    requires (st2.V, st2.L, st2.level) == Stamp(sp.V, st.L, st.level, [run.sp.ops, [], sp.cls])
    requires st2.T == st.T && st2.S == sp.S && st2.locs == sp.locs && st2.id == sp.id && st2.memo == sp.memo
    ensures Shape(st2) && NextOutcome(st, p, st2, Done(|sp.cls|), run, sp)
    ensures st2 == st.(V := run.sp.V, id := run.sp.id) && sp.cls == []
  {
    SpawnedGrown(st, p);
    IdleIs(st, run, sp, st2);
    IdleShape(st, run.sp);
  }

  /** The store an idle `next` leaves is the old one with the new counter. */
  lemma IdleIs(st: Store, run: Run, sp: Space, st2: Store)
    requires run.sp.ops == [] && sp == StartSpace(st, run)
    requires (st2.V, st2.L, st2.level) == Stamp(sp.V, st.L, st.level, [run.sp.ops, [], sp.cls])
    requires st2.T == st.T && st2.S == sp.S && st2.locs == sp.locs && st2.id == sp.id && st2.memo == sp.memo
    ensures st2 == st.(V := run.sp.V, id := run.sp.id) && sp.cls == []
  {
    StampNone(sp.V, st.L, st.level, [run.sp.ops, [], sp.cls]);
  }

  /** A `next` that made new states. */
  lemma GrewOutcome(st: Store, p: Params, run: Run, sp: Space, st2: Store)
    requires Shape(st) && run == TrigraphStep.Spawned(st, p) && run.err.None? && run.sp.sts != []
    requires Placing(run.sp.sts, StartSpace(st, run), sp, [], run.sp.sts)
    requires (st2.V, st2.L, st2.level) == Stamp(sp.V, st.L, st.level, [run.sp.ops, run.sp.sts, sp.cls])
    requires st2.T == st.T[st.level / 3 + 1 := sp.T] && st2.S == sp.S && st2.locs == sp.locs
    requires st2.id == sp.id && st2.memo == sp.memo
    ensures Shape(st2) && NextOutcome(st, p, st2, Done(|sp.cls|), run, sp)
    ensures st2.level == st.level + 3 && |sp.cls| > 0
  {
    SpawnedGrown(st, p);
    GrowingOutgrown(st, run, sp);
    GrewIs(st, run, sp, st2);
    GrewShape(st, run, sp);
  }

  /** The store a growing `next` leaves is `Grew`. */
  lemma GrewIs(st: Store, run: Run, sp: Space, st2: Store)
    requires run.sp.ops != [] && run.sp.sts != [] && sp.cls != []
    requires (st2.V, st2.L, st2.level) == Stamp(sp.V, st.L, st.level, [run.sp.ops, run.sp.sts, sp.cls])
    requires st2.T == st.T[st.level / 3 + 1 := sp.T] && st2.S == sp.S && st2.locs == sp.locs
    requires st2.id == sp.id && st2.memo == sp.memo
    ensures st2 == Grew(st, run, sp)
  {
    StampThree(sp.V, st.L, st.level, run.sp.ops, run.sp.sts, sp.cls);
  }

  /** Both ways a `next` that did not throw can end. */
  lemma SettledOutcome(st: Store, p: Params, run: Run, sp: Space, st2: Store)
    requires Shape(st) && run == TrigraphStep.Spawned(st, p) && run.err.None?
    requires var P := run.sp.sts;
      Placing(P, StartSpace(st, run), sp, [], P) && (P == [] ==> sp == StartSpace(st, run)) &&
      (st2.V, st2.L, st2.level) == Stamp(sp.V, st.L, st.level, [run.sp.ops, P, sp.cls]) &&
      st2.T == (if P != [] then st.T[st.level / 3 + 1 := sp.T] else st.T) &&
      st2.S == sp.S && st2.locs == sp.locs && st2.id == sp.id && st2.memo == sp.memo
    ensures Shape(st2) && NextOutcome(st, p, st2, Done(|sp.cls|), run, sp)
    ensures run.sp.sts != [] ==> st2.level == st.level + 3 && |sp.cls| > 0
    ensures run.sp.sts == [] ==> |sp.cls| == 0 && st2 == st.(V := run.sp.V, id := run.sp.id)
  {
    if run.sp.sts == [] {
      IdleOutcome(st, p, run, sp, st2);
    } else {
      GrewOutcome(st, p, run, sp, st2);
    }
  }

  /** The location loop may start on what the first half made. */
  lemma SpawnedReady(st: Store, p: Params, run: Run)
    requires Shape(st) && run == TrigraphStep.Spawned(st, p)
    ensures Ready(run.sp.sts, StartSpace(st, run))
  {
    SpawnedGrown(st, p);
    StartReady(st, run);
  }

  /** The second half of a `next` whose first half did not throw: the new
      states are located and the new lists become levels. */
  method Settle(st: Store, p: Params, spawned: Run) returns (st2: Store, r: Outcome<nat>, ghost sp: Space)
    requires Shape(st) && spawned == TrigraphStep.Spawned(st, p) && spawned.err.None?
    ensures Shape(st2) && NextOutcome(st, p, st2, r, spawned, sp)
    ensures spawned.sp.sts != [] ==> st2.level == st.level + 3 && r.Done? && r.value > 0
    ensures spawned.sp.sts == [] ==> r == Done(0) && st2 == st.(V := spawned.sp.V, id := spawned.sp.id)
  {
    var P := spawned.sp.sts;
    SpawnedReady(st, p, spawned);
    var located := Locate(StartSpace(st, spawned), p.eq, p.coord, P);
    sp := located;
    var T := if P != [] then st.T[st.level / 3 + 1 := located.T] else st.T;
    var V, L, level := StampLayers(located.V, st.L, st.level, [spawned.sp.ops, P, located.cls]);
    st2 := Store(V, L, T, located.S, located.locs, located.id, level, located.memo);
    r := Done(|located.cls|);
    SettledOutcome(st, p, spawned, located, st2);
  }

  /** One step: the new operations and states, their locations and cliques,
      and the three new levels; `run` and `sp` are the two halves. */
  method NextStep(st: Store, p: Params) returns (st2: Store, r: Outcome<nat>, ghost run: Run, ghost sp: Space)
    requires Shape(st)
    ensures Shape(st2) && NextOutcome(st, p, st2, r, run, sp)
    ensures r.Done? && run.sp.sts != [] ==> st2.level == st.level + 3 && r.value > 0
    ensures r.Done? && run.sp.sts == [] ==> r.value == 0 && st2 == st.(V := run.sp.V, id := run.sp.id)
  {
    ShapeIds(st);
    var spawned: Run;
    if st.level == 0 {
      spawned := SpawnFirst(st.V, st.id, p.init);
    } else {
      spawned := SpawnCliques(Sprout(st.V, [], [], st.id), Level(st.L, st.level), p.oper);
    }
    run := spawned;
    if spawned.err.Some? {
      ThrownOutcome(st, p, spawned);
      st2 := st.(V := Restrict(spawned.sp.V, st.V), id := spawned.sp.id);
      r := Threw(spawned.err.value);
      sp := StartSpace(st, spawned);
    } else {
      st2, r, sp := Settle(st, p, spawned);
    }
  }
}
