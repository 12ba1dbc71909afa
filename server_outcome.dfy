/** What each action of the server worker `server/model.mjs` leaves, as
    predicates over values, and what the layer messages of a step do to
    a clique worker's mirror graph. */
module ServerOutcome {
  import opened SeqUtil
  import opened CausalGraph
  import opened CliqueWorker
  import opened Layout
  import opened Factorials
  import opened EngineCore
  import opened EngineCliques
  import opened EngineFind
  import opened EngineFilter
  import opened EngineOper
  import opened EngineSetup
  import opened EngineReconstruct
  import opened EngineReady
  import opened EngineSession
  import opened EngineObserve
  import opened EngineMirror

  // ---- findCliques ----

  /** The two layers a completed step mirrors: its operations and states
      without the clique flag, then its cliques with it, each with links
      that lay its range of `V` out. */
  ghost predicate StepMirrored(V: Arena, ids: Ids, msgs: seq<Mirror>) {
    |msgs| == 2 && msgs[0].AddLayer? && msgs[1].AddLayer? &&
    msgs[0].start == ids.prevLoc + 1 && msgs[0].end == ids.state && !msgs[0].clique &&
    msgs[1].start == ids.state + 1 && msgs[1].end == ids.clique && msgs[1].clique &&
    LaidOut(V, msgs)
  }

  /** The layers of a step whose clique jobs were rejected: its operations
      and states, then the same range taken back. */
  ghost predicate RejectMirrored(V: Arena, lo: nat, hi: nat, msgs: seq<Mirror>) {
    |msgs| == 2 && msgs[0].AddLayer? && msgs[0].start == lo + 1 && msgs[0].end == hi && !msgs[0].clique &&
    msgs[1] == DelLayer(lo + 1, hi) && LaidOut(V, msgs)
  }

  /** What `findCliques(d)` of `server/model.mjs` leaves: the operations
      and states labelled and mirrored and, when no clique job is rejected,
      the cliques and locations labelled and the cliques mirrored; when one
      is, the layer taken back. The step fails exactly when there is a job
      and one was rejected. */
  ghost predicate Found(V0: Arena, id0: nat, ops: seq<seq<nat>>, sts: seq<NewState>, looks: Looks, rejected: bool,
                        ok: bool, V: Arena, id: nat, ids: Ids, msgs: seq<Mirror>,
                        S: Arena, G: seq<Group>, MC: seq<seq<seq<nat>>>, cen: seq<Census>) {
    var hi := id0 + |ops| + |sts|;
    Below(V) && hi <= id && (forall i :: i in V0 ==> i in V && V[i] == V0[i]) &&
    Layered(V0, id0, ops, sts, looks, S, G) && Searched(S, G, MC) && Dense(S, hi) &&
    Dense(V, id) && Ordered(ids) && ids.prevLoc == id0 && ids.loc == id &&
    ids.oper == id0 + |ops| && ids.state == hi &&
    ok == (G == [] || !rejected) &&
    (ok ==> Stepped(V0, id0, ops, sts, looks, S, G, MC, cen, V, ids) && |MC| == |G| && StepMirrored(V, ids, msgs)) &&
    (!ok ==> V == S && id == hi && MC == [] && RejectMirrored(S, id0, hi, msgs))
  }

  /** What the answered clique jobs and the labelling after them leave. */
  ghost predicate Completed(V0: Arena, id0: nat, ops: seq<seq<nat>>, sts: seq<NewState>, looks: Looks,
                            S: Arena, G: seq<Group>, MC: seq<seq<seq<nat>>>, cen: seq<Census>,
                            V: Arena, id: nat, ids: Ids) {
    Dense(V, id) && Below(V) && (forall i :: i in V0 ==> i in V && V[i] == V0[i]) &&
    Searched(S, G, MC) && |MC| == |G| && Stepped(V0, id0, ops, sts, looks, S, G, MC, cen, V, ids) &&
    Ordered(ids) && ids.loc == id
  }

  // ---- the layers on a worker ----

  /** A completed step's layers make the worker hold every operation and
      state of the step with its parents and without the clique flag, every
      clique with its parents and the flag, and every other vertex as
      before. */
  lemma StepLayersInstall(W: Graph, V: Arena, ids: Ids, msgs: seq<Mirror>)
    requires Ordered(ids) && StepMirrored(V, ids, msgs)
    requires forall i :: ids.prevLoc < i <= ids.clique ==> i in V
    ensures var W2 := Replay(W, msgs);
      W2.Keys == W.Keys + IdRange(ids.prevLoc + 1, ids.clique) &&
      (forall i :: ids.prevLoc < i <= ids.state ==> W2[i] == Node(V[i].parents, false)) &&
      (forall i :: ids.state < i <= ids.clique ==> W2[i] == Node(V[i].parents, true)) &&
      (forall i :: i in W && !(ids.prevLoc < i <= ids.clique) ==> W2[i] == W[i])
  {
    var W1 := Apply(W, msgs[0]);
    assert msgs == [msgs[0], msgs[1]];
    LaidOutPair(V, msgs[0], msgs[1]);
    AddLayerInstalls(W, V, ids.prevLoc + 1, ids.state, false, msgs[0].links);
    AddLayerInstalls(W1, V, ids.state + 1, ids.clique, true, msgs[1].links);
    assert msgs[1..][1..] == [];
    calc {
      Replay(W, msgs);
      Replay(W1, msgs[1..]);
      Replay(Apply(W1, msgs[1]), msgs[1..][1..]);
    }
  }

  /** A rejected step's layers leave the worker as it was, without the
      step's range. */
  lemma RejectedLayersRestore(W: Graph, V: Arena, lo: nat, hi: nat, msgs: seq<Mirror>)
    requires RejectMirrored(V, lo, hi, msgs)
    ensures Replay(W, msgs) == DelSpec(W, lo + 1, hi)
  {
    assert msgs == [msgs[0], msgs[1]];
    LaidOutPair(V, msgs[0], msgs[1]);
    AddThenDelLayer(W, V, lo + 1, hi, msgs[0].links);
    assert msgs == [AddLayer(lo + 1, hi, msgs[0].links, false), DelLayer(lo + 1, hi)];
  }

  /** `next` followed by `prev` gives the worker back the graph it had,
      without the range of the step. */
  lemma NextThenPrevRestores(W: Graph, V: Arena, ids: Ids, msgs: seq<Mirror>)
    requires Ordered(ids) && StepMirrored(V, ids, msgs)
    ensures Replay(W, msgs + [DelLayer(ids.prevLoc + 1, ids.clique)]) == DelSpec(W, ids.prevLoc + 1, ids.clique)
  {
    var W2 := Replay(W, msgs);
    assert msgs == [msgs[0], msgs[1]];
    LaidOutPair(V, msgs[0], msgs[1]);
    StepLayersInstall(W, V, ids, msgs);
    ReplayConcat(W, msgs, [DelLayer(ids.prevLoc + 1, ids.clique)]);
    assert [DelLayer(ids.prevLoc + 1, ids.clique)][1..] == [];
    assert Replay(W, msgs + [DelLayer(ids.prevLoc + 1, ids.clique)]) == DelSpec(W2, ids.prevLoc + 1, ids.clique);
  }

  // ---- filter ----

  /** The result of observer 1: one drawn clique per location, for every
      location or up to the one after which the job was found aborted. */
  ghost predicate EachObserved(V: Arena, Ll: seq<nat>, rand: nat -> real, proceed: nat -> bool, Lc: seq<nat>, ok: bool) {
    (ok ==> Lc == Picks(V, Ll, rand, |Ll|)) &&
    (!ok ==> exists k :: 0 <= k < |Ll| && !proceed(k) && Lc == Picks(V, Ll, rand, k + 1))
  }

  /** What `filter(d)` of the server leaves: observer 1, which only
      replaces `Lc`; observer 2, which throws before changing anything; or
      the cap of the cliques per location. `ok` is false after an abort and
      after the throw of observer 2. */
  ghost predicate ServerFiltered(V0: Arena, L0: Latest, observer: nat, N: nat, rand: nat -> real, proceed: nat -> bool,
                                 V: Arena, Lc: seq<nat>, ok: bool) {
    if observer == 1 then V == V0 && EachObserved(V0, L0.locs, rand, proceed, Lc, ok)
    else if observer == 2 then !ok && V == V0 && Lc == L0.cliques
    else Filtered(V0, L0, N, proceed, V, Lc, ok)
  }

  // ---- next ----

  /** What the search of the server's `next(d)` leaves: a rejected job
      rebuilds the current step, otherwise the new step is pushed and
      posted. */
  ghost predicate ServerSearchOutcome(V0: Arena, id0: nat, IDS0: seq<Ids>, sp: Spawn, looks: Looks, rejected: bool,
                                      ok: bool, S: Arena, G: seq<Group>, MC: seq<seq<seq<nat>>>, cen: seq<Census>,
                                      V: Arena, id: nat, IDS: seq<Ids>, L: Latest, sent: seq<Message>, msgs: seq<Mirror>) {
    var hi := id0 + |sp.ops| + |sp.sts|;
    Layered(V0, id0, sp.ops, sp.sts, looks, S, G) && Searched(S, G, MC) && Dense(S, hi) &&
    ok == (G == [] || !rejected) &&
    (!ok ==>
      IDS == IDS0 && V == V0 && id == id0 && IDS != [] && L == LatestOf(IDS[|IDS| - 1]) && sent == [] &&
      RejectMirrored(S, id0, hi, msgs)) &&
    (ok ==>
      |IDS| == |IDS0| + 1 && IDS[..|IDS0|] == IDS0 &&
      Stepped(V0, id0, sp.ops, sp.sts, looks, S, G, MC, cen, V, IDS[|IDS| - 1]) &&
      Cut(V, id0) == V0 && L == LatestOf(IDS[|IDS| - 1]) &&
      Readable(V, IDS[|IDS| - 1], L) && sent == [Message(ReadyFor(V, |IDS|, IDS[|IDS| - 1], L), None)] &&
      StepMirrored(V, IDS[|IDS| - 1], msgs))
  }

  /** What the operator phase and the search leave, from the filtered
      state. */
  ghost predicate ServerStepOutcome(V0: Arena, id0: nat, IDS0: seq<Ids>, L0: Latest, cb: Callbacks, max: nat,
                                    draws: nat -> nat -> real, rejected: bool, r: Outcome<bool>, sp: Spawn,
                                    S: Arena, G: seq<Group>, MC: seq<seq<seq<nat>>>, cen: seq<Census>,
                                    V: Arena, id: nat, IDS: seq<Ids>, L: Latest, sent: seq<Message>, msgs: seq<Mirror>)
    requires Installed(cb) && UnitOracle(draws)
  {
    var o := Spawned(V0, L0.cliques, max, cb.oper.value, draws, |L0.cliques|);
    (o.Threw? ==>
      r == Threw(o.err) && IDS == IDS0 && V == V0 && id == id0 && L == Latest([], [], L0.cliques, L0.locs) &&
      sent == [] && msgs == []) &&
    (o.Done? ==>
      sp == o.value && SpawnShape(sp, L0.cliques) && r.Done? &&
      ServerSearchOutcome(V0, id0, IDS0, sp, LooksOf(cb), rejected, r.value, S, G, MC, cen, V, id, IDS, L, sent, msgs))
  }

  // ---- setup ----

  /** What the first step of `setup` leaves. */
  ghost predicate ServerFirstOutcome(states: seq<int>, looks: Looks, rejected: bool, ok: bool,
                                     S: Arena, G: seq<Group>, MC: seq<seq<seq<nat>>>, cen: seq<Census>,
                                     V: Arena, IDS: seq<Ids>, L: Latest, msgs: seq<Mirror>) {
    var sp := InitialSpawn(states);
    var hi := |sp.ops| + |sp.sts|;
    Layered(map[], 0, sp.ops, sp.sts, looks, S, G) && Searched(S, G, MC) && Dense(S, hi) &&
    ok == (G == [] || !rejected) &&
    (!ok ==> IDS == [] && RejectMirrored(S, 0, hi, msgs)) &&
    (ok ==>
      |IDS| == 1 && Stepped(map[], 0, sp.ops, sp.sts, looks, S, G, MC, cen, V, IDS[0]) && L == LatestOf(IDS[0]) &&
      Readable(V, IDS[0], L) && StepMirrored(V, IDS[0], msgs))
  }

  /** What `setup(d)` leaves once the functions are installed and the
      initial states checked: the first step and, unless the detectors are
      malformed or there is no tuple to post, the first `ready` message
      with the detectors. */
  ghost predicate BootOutcome(states: seq<int>, dets: Outcome<seq<string>>, looks: Looks, rejected: bool,
                              r: Outcome<bool>, S: Arena, G: seq<Group>, MC: seq<seq<seq<nat>>>, cen: seq<Census>,
                              V: Arena, IDS: seq<Ids>, L: Latest, msgs: seq<Mirror>, sent: seq<Message>) {
    var ok := IDS != [];
    ServerFirstOutcome(states, looks, rejected, ok, S, G, MC, cen, V, IDS, L, msgs) &&
    (dets.Threw? ==> r == Threw(dets.err) && sent == []) &&
    (dets.Done? && !ok ==> r.Threw? && r.err.TypeError? && sent == []) &&
    (dets.Done? && ok ==> r == Done(true) && sent == [Message(ReadyFor(V, 1, IDS[0], L), Some(dets.value))])
  }
}
