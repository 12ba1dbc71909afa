/** What one call of `next` (observer mode 0) in `modules/Trigraph.mjs` does
    to the trigraph: the new operations and states of the step, the
    location loop over the new states, and the three new levels. */
module TrigraphStep {
  import opened EngineOper
  import opened EngineSetup
  import opened TrigraphGraph
  import opened TrigraphSpawn
  import opened TrigraphPlaced
  import opened TrigraphLayers
  import opened TrigraphStore

  /** `this.L.get(l)`, with no list read as an empty one. */
  function Level(L: map<nat, seq<nat>>, l: nat): seq<nat> {
    if l in L then L[l] else []
  }

  /** The first half of `next`: the first step at level 0, and the
      operations of the cliques of the current level on every later step. */
  function Spawned(st: Store, p: Params): Run {
    if st.level == 0 then FirstStep(st.V, st.id, p.init)
    else OperatorPhase(Sprout(st.V, [], [], st.id), Level(st.L, st.level), p.oper)
  }

  /** The stored vertices as `V2` has them: the new vertices of a step
      that threw were never stored, while the child pushes onto stored
      vertices stay. */
  function Restrict(V2: Vertices, V: Vertices): (r: Vertices)
    ensures r.Keys == V.Keys
  {
    map x | x in V :: if x in V2 then V2[x] else V[x]
  }

  /** Where the location loop starts: the spawned vertices and counter, the
      stored locations, nothing yet recorded for the step. */
  function StartSpace(st: Store, run: Run): Space {
    Space(run.sp.V, st.locs, st.S, [], [], run.sp.id, st.memo)
  }

  /** `st2` and the reply `r` are what `next` makes of `st`: `run` is the
      first half and `sp` what the location loop left. On an exception the
      stored vertices keep the child pushes and the counter stays
      advanced; otherwise the new states are placed, the step's locations
      are recorded under the step when there are any, and the new lists
      become levels. The reply is the number of new cliques. */
  ghost predicate NextOutcome(st: Store, p: Params, st2: Store, r: Outcome<nat>, run: Run, sp: Space) {
    run == Spawned(st, p) &&
    (run.err.Some? ==>
      r == Threw(run.err.value) && st2 == st.(V := Restrict(run.sp.V, st.V), id := run.sp.id)) &&
    (run.err.None? ==>
      var P := run.sp.sts;
      var sp0 := StartSpace(st, run);
      Placing(P, sp0, sp, [], P) && (P == [] ==> sp == sp0) &&
      var (V3, L3, l3) := Stamp(sp.V, st.L, st.level, [run.sp.ops, P, sp.cls]);
      r == Done(|sp.cls|) &&
      st2 == Store(V3, L3, if P != [] then st.T[st.level / 3 + 1 := sp.T] else st.T,
                   sp.S, sp.locs, sp.id, l3, sp.memo))
  }
}
