/** The engine of the server worker `server/model.mjs`. It keeps the same
    state as the browser worker (`V`, `id`, `IDS`, the latest lists), and
    adds the factorial memo `fmem`, the two observers of `filter` and a
    pool of clique workers: every step's operations and states, and then
    its cliques, are mirrored to the workers with `addLayer`, the workers
    search the coordinate groups for cliques (one job per group), and
    `delLayer` takes a layer back. Whether some job was rejected (the job
    was aborted while the workers ran) is the oracle `rejected`; the
    cliques a job answers with are the maximal spacelike subsets of its
    group, which is what the browser worker's search computes over `V`. */
module ServerEngine {
  import opened SeqUtil
  import opened CausalGraph
  import opened CliqueWorker
  import opened Layout
  import opened Factorials
  import opened EngineCore
  import opened EngineCliques
  import opened EngineFind
  import opened EngineFilter
  import opened EngineOper
  import opened EngineSetup
  import opened EngineReconstruct
  import opened EngineReady
  import opened EngineSession
  import opened EngineObserve
  import opened EngineMirror
  import opened ServerOutcome
  import opened ServerActions

  // ---- findCliques ----

  /** `findCliques(d)`: label the operations and the states, mirror them,
      run one clique job per coordinate group and, when none is rejected,
      label the cliques, mirror them and label the locations; when one is,
      take the layer back. */
  method ServerFind(V0: Arena, id0: nat, ops: seq<seq<nat>>, sts: seq<NewState>, looks: Looks, rejected: bool)
    returns (ok: bool, V: Arena, id: nat, ids: Ids, msgs: seq<Mirror>,
             S: Arena, G: seq<Group>, MC: seq<seq<seq<nat>>>, cen: seq<Census>)
    requires StepInput(V0, id0, ops, sts)
    ensures Found(V0, id0, ops, sts, looks, rejected, ok, V, id, ids, msgs, S, G, MC, cen)
  {
    var opMax, stateMax;
    S, opMax, stateMax, G := Layer(V0, id0, ops, sts, looks);
    assert Dense(S, id0 + |ops| + |sts|);
    var add := LayerMessage(S, id0 + 1, stateMax, false);
    if G != [] && rejected {
      ok, V, id, ids := false, S, stateMax, Ids(id0, opMax, stateMax, stateMax, stateMax);
      msgs, MC, cen := [add, DelLayer(id0 + 1, stateMax)], [], [];
      LaidOutPair(S, add, msgs[1]);
      return;
    }
    ok := true;
    V, id, ids, MC, cen := ServerConclude(V0, id0, ops, sts, looks, S, opMax, stateMax, G);
    msgs := CliquesMessage(S, V, id, ids, add);
  }

  /** `addLayer(ids[2]+1, ids[3], true)`: the cliques of the step, after
      the layer of its operations and states. */
  method CliquesMessage(S: Arena, V: Arena, id: nat, ids: Ids, add: Mirror) returns (msgs: seq<Mirror>)
    requires Dense(V, id) && ids.state <= ids.clique <= id
    requires forall i :: i in S ==> i in V && V[i] == S[i]
    requires add.AddLayer? && add.start == ids.prevLoc + 1 && add.end == ids.state && !add.clique
    requires LaysOut(S, ids.prevLoc + 1, ids.state, add.links)
    ensures StepMirrored(V, ids, msgs)
  {
    var addCliques := LayerMessage(V, ids.state + 1, ids.clique, true);
    LaysOutAgree(S, V, ids.prevLoc + 1, ids.state, add.links);
    msgs := [add, addCliques];
    LaidOutPair(V, add, addCliques);
  }

  /** The clique jobs of `findCliques(d)`, one per coordinate group, once
      every job has answered: the maximal spacelike cliques of each group. */
  method CliqueJobs(S: Arena, G: seq<Group>, opMax: nat, stateMax: nat) returns (MC: seq<seq<seq<nat>>>)
    requires ParentsBelow(Project(S)) && GroupsIn(G, S, opMax, stateMax) && GroupsDistinct(G)
    ensures Searched(S, G, MC) && |MC| == |G| && CliquesBelow(MC, stateMax)
  {
    var done;
    MC, done := CliqueSearch(S, G, Answered);
    SearchedBelow(S, G, MC, opMax, stateMax);
  }

  /** No job is found aborted once all of them have answered. */
  function Answered(k: nat): bool {
    true
  }

  /** `Promise.all(promises)` once every job is answered, and the clique
      and location loops of `findCliques(d)`. */
  method ServerConclude(V0: Arena, id0: nat, ops: seq<seq<nat>>, sts: seq<NewState>, looks: Looks,
                        S: Arena, opMax: nat, stateMax: nat, G: seq<Group>)
    returns (V: Arena, id: nat, ids: Ids, MC: seq<seq<seq<nat>>>, cen: seq<Census>)
    requires Layered(V0, id0, ops, sts, looks, S, G) && opMax == id0 + |ops| && stateMax == opMax + |sts|
    requires Dense(S, stateMax) && Below(S) && ParentsBelow(Project(S))
    requires forall i :: i in V0 ==> i in S && S[i] == V0[i]
    requires GroupsIn(G, S, opMax, stateMax) && GroupsDistinct(G)
    ensures Completed(V0, id0, ops, sts, looks, S, G, MC, cen, V, id, ids)
    ensures ids.prevLoc == id0 && ids.oper == opMax && ids.state == stateMax && ids.clique <= id
    ensures forall i :: i in S ==> i in V && V[i] == S[i]
  {
    MC := CliqueJobs(S, G, opMax, stateMax);
    var cliqueMax;
    V, cliqueMax, id, cen := Conclude(S, stateMax, G, MC);
    ids := Ids(id0, opMax, stateMax, cliqueMax, id);
  }

  // ---- filter ----

  /** Observer 1 picks cliques below `id`. */
  lemma {:induction false} PicksGiven(V: Arena, Ll: seq<nat>, rand: nat -> real, n: nat, id: nat)
    requires n <= |Ll| && Dense(V, id) && Below(V)
    ensures forall x :: x in Picks(V, Ll, rand, n) ==> x <= id
  {
    if n > 0 {
      PicksGiven(V, Ll, rand, n - 1, id);
      var l := Ll[n - 1];
      var p := PickAt(V, l, rand(n - 1));
      forall j | 0 <= j < |p| ensures p[j] <= id {
        var k :| 0 <= k < |V[l].parents| && V[l].parents[k] == p[j];
      }
    }
  }

  /** `filter(d)` of `server/model.mjs`, with the draws `rand(i)` of its
      rounds and its progress polls `proceed`. */
  method ServerFilter(m0: seq<nat>, V0: Arena, id: nat, L0: Latest, observer: nat, N: nat,
                      rand: nat -> real, proceed: nat -> bool)
    returns (m: seq<nat>, V: Arena, Lc: seq<nat>, f: Outcome<bool>)
    requires FactMemo(m0) && Dense(V0, id) && Below(V0) && CliquesGiven(L0, id)
    ensures FactMemo(m) && Dense(V, id) && Below(V) && CliquesGiven(L0.(cliques := Lc), id)
    ensures ServerFiltered(V0, L0, observer, N, rand, proceed, V, Lc, f.Done? && f.value)
    ensures observer != 1 ==> m == m0
    ensures observer == 2 ==> f == Threw(ObserveWholeAsWritten(L0.cliques).err)
    ensures observer != 2 ==> f.Done?
  {
    V := V0;
    var ok;
    if observer == 1 {
      m, Lc, ok := ObserveEach(m0, V0, L0.locs, rand, proceed);
      f := Done(ok);
      if ok {
        PicksGiven(V0, L0.locs, rand, |L0.locs|, id);
      } else {
        var k :| 0 <= k < |L0.locs| && !proceed(k) && Lc == Picks(V0, L0.locs, rand, k + 1);
        PicksGiven(V0, L0.locs, rand, k + 1, id);
      }
    } else if observer == 2 {
      m, Lc := m0, L0.cliques;
      f := Threw(ObserveWholeAsWritten(L0.cliques).err);
    } else {
      m := m0;
      V, Lc, ok := CapFilter(V0, id, L0, N, proceed);
      f := Done(ok);
    }
  }

  // ---- next ----

  /** The search of the server's `next(d)` on the operations and states of
      `sp`. */
  method ServerSearchStep(V0: Arena, id0: nat, IDS0: seq<Ids>, L0: Latest, cb: Callbacks, sp: Spawn, rejected: bool)
    returns (ok: bool, V: Arena, id: nat, IDS: seq<Ids>, L: Latest, sent: seq<Message>, msgs: seq<Mirror>,
             ghost S: Arena, ghost G: seq<Group>, ghost MC: seq<seq<seq<nat>>>, ghost cen: seq<Census>)
    requires Inv(V0, id0, IDS0, L0, cb) && IDS0 != [] && SpawnShape(sp, L0.cliques)
    ensures Inv(V, id, IDS, L, cb)
    ensures ServerSearchOutcome(V0, id0, IDS0, sp, LooksOf(cb), rejected, ok, S, G, MC, cen, V, id, IDS, L, sent, msgs)
  {
    assert StepInput(V0, id0, sp.ops, sp.sts) by {
      forall k, p | 0 <= k < |sp.ops| && p in sp.ops[k] ensures p <= id0 {
        assert p == sp.ops[k][0];
      }
    }
    var ids;
    ok, V, id, ids, msgs, S, G, MC, cen := ServerFind(V0, id0, sp.ops, sp.sts, LooksOf(cb), rejected);
    IDS := IDS0;
    if !ok {
      V, id, L, sent := RejectedSearch(V0, id0, IDS0, L0, cb, sp, rejected, V, id, ids, msgs, S, G, MC, cen);
    } else {
      IDS, L, sent := AcceptedSearch(V0, id0, IDS0, L0, cb, sp, rejected, V, id, ids, msgs, S, G, MC, cen);
    }
  }

  /** A rejected job: `reconstruct()` of the current step. */
  method RejectedSearch(V0: Arena, id0: nat, IDS0: seq<Ids>, L0: Latest, cb: Callbacks, sp: Spawn, rejected: bool,
                        V1: Arena, id1: nat, ids: Ids, msgs: seq<Mirror>,
                        ghost S: Arena, ghost G: seq<Group>, ghost MC: seq<seq<seq<nat>>>, ghost cen: seq<Census>)
    returns (V: Arena, id: nat, L: Latest, sent: seq<Message>)
    requires Inv(V0, id0, IDS0, L0, cb) && IDS0 != []
    requires Found(V0, id0, sp.ops, sp.sts, LooksOf(cb), rejected, false, V1, id1, ids, msgs, S, G, MC, cen)
    ensures Inv(V, id, IDS0, L, cb)
    ensures ServerSearchOutcome(V0, id0, IDS0, sp, LooksOf(cb), rejected, false, S, G, MC, cen, V, id, IDS0, L, sent, msgs)
  {
    CutUndoesStep(V0, id0, V1, id1);
    V, id, L := Rebuild(V1, id1, IDS0, cb);
    sent := [];
  }

  /** A completed step: its tuple is pushed and its `ready` message
      posted. */
  method AcceptedSearch(V0: Arena, id0: nat, IDS0: seq<Ids>, L0: Latest, cb: Callbacks, sp: Spawn, rejected: bool,
                        V: Arena, id: nat, ids: Ids, msgs: seq<Mirror>,
                        ghost S: Arena, ghost G: seq<Group>, ghost MC: seq<seq<seq<nat>>>, ghost cen: seq<Census>)
    returns (IDS: seq<Ids>, L: Latest, sent: seq<Message>)
    requires Inv(V0, id0, IDS0, L0, cb) && IDS0 != []
    requires Found(V0, id0, sp.ops, sp.sts, LooksOf(cb), rejected, true, V, id, ids, msgs, S, G, MC, cen)
    ensures Inv(V, id, IDS, L, cb)
    ensures ServerSearchOutcome(V0, id0, IDS0, sp, LooksOf(cb), rejected, true, S, G, MC, cen, V, id, IDS, L, sent, msgs)
  {
    CutUndoesStep(V0, id0, V, id);
    ChainedSnoc(IDS0, ids);
    LatestGiven(ids);
    LatestReadable(V, ids);
    var data := ReadyData(V, |IDS0| + 1, ids, LatestOf(ids));
    IDS, L, sent := IDS0 + [ids], LatestOf(ids), [Message(data, None)];
    assert IDS[|IDS| - 1] == ids;
  }

  /** The `Lc.forEach` of `next(d)` that calls the operator, then the
      search. */
  method ServerOperAndSearch(V0: Arena, id0: nat, IDS0: seq<Ids>, L0: Latest, cb: Callbacks, max: nat,
                             draws: nat -> nat -> real, rejected: bool)
    returns (r: Outcome<bool>, V: Arena, id: nat, IDS: seq<Ids>, L: Latest, sent: seq<Message>, msgs: seq<Mirror>,
             ghost sp: Spawn, ghost S: Arena, ghost G: seq<Group>, ghost MC: seq<seq<seq<nat>>>, ghost cen: seq<Census>)
    requires Inv(V0, id0, IDS0, L0, cb) && IDS0 != [] && UnitOracle(draws)
    ensures Inv(V, id, IDS, L, cb)
    ensures ServerStepOutcome(V0, id0, IDS0, L0, cb, max, draws, rejected, r, sp, S, G, MC, cen, V, id, IDS, L, sent, msgs)
  {
    S, G, MC, cen, sp := map[], [], [], [], Spawn([], []);
    var o := OperPhase(V0, L0.cliques, max, cb.oper.value, draws);
    SpawnedShape(V0, L0.cliques, max, cb.oper.value, draws, |L0.cliques|);
    if o.Threw? {
      r, V, id, IDS, L, sent, msgs := Threw(o.err), V0, id0, IDS0, Latest([], [], L0.cliques, L0.locs), [], [];
      return;
    }
    sp := o.value;
    var ok;
    ok, V, id, IDS, L, sent, msgs, S, G, MC, cen := ServerSearchStep(V0, id0, IDS0, L0, cb, o.value, rejected);
    r := Done(ok);
  }

  /** The server's `next(d)` after its check, on values. */
  method ServerNextStep(m0: seq<nat>, V0: Arena, id0: nat, IDS0: seq<Ids>, L0: Latest, cb: Callbacks,
                        observer: nat, cap: nat, max: nat, rand: nat -> real, draws: nat -> nat -> real,
                        filterPolls: nat -> bool, rejected: bool)
    returns (r: Outcome<bool>, m: seq<nat>, V: Arena, id: nat, IDS: seq<Ids>, L: Latest, sent: seq<Message>, msgs: seq<Mirror>,
             ghost fok: bool, ghost Vf: Arena, ghost Lcf: seq<nat>, ghost sp: Spawn,
             ghost S: Arena, ghost G: seq<Group>, ghost MC: seq<seq<seq<nat>>>, ghost cen: seq<Census>)
    requires FactMemo(m0) && Inv(V0, id0, IDS0, L0, cb) && IDS0 != [] && UnitOracle(draws)
    ensures FactMemo(m) && Inv(V, id, IDS, L, cb)
    ensures ServerNextOutcome(V0, id0, IDS0, L0, cb, observer, cap, max, rand, draws, filterPolls, rejected,
                              r, fok, Vf, Lcf, sp, S, G, MC, cen, V, id, IDS, L, sent, msgs)
    ensures observer != 1 ==> m == m0
    ensures observer == 2 ==>
      r == Threw(ObserveWholeAsWritten(L0.cliques).err) && V == V0 && id == id0 && IDS == IDS0 && L == L0 &&
      sent == [] && msgs == []
  {
    S, G, MC, cen, sp := map[], [], [], [], Spawn([], []);
    var Lc, f;
    m, V, Lc, f := ServerFilter(m0, V0, id0, L0, observer, cap, rand, filterPolls);
    fok, Vf, Lcf := f.Done? && f.value, V, Lc;
    IDS := IDS0;
    if f.Threw? {
      r, id, L, sent, msgs := f, id0, L0, [], [];
      return;
    }
    if !f.value {
      V, id, L := Rebuild(V, id0, IDS, cb);
      r, sent, msgs := Done(false), [], [];
      return;
    }
    r, V, id, IDS, L, sent, msgs, sp, S, G, MC, cen :=
      ServerOperAndSearch(V, id0, IDS0, L0.(cliques := Lc), cb, max, draws, rejected);
  }

  // ---- setup ----

  /** The reset of `setup(d)` and its `findCliques(d)`. */
  method ServerFirstStep(states: seq<int>, cb: Callbacks, rejected: bool)
    returns (ok: bool, V: Arena, id: nat, IDS: seq<Ids>, L: Latest, msgs: seq<Mirror>,
             ghost S: Arena, ghost G: seq<Group>, ghost MC: seq<seq<seq<nat>>>, ghost cen: seq<Census>)
    requires Installed(cb)
    ensures Inv(V, id, IDS, L, cb) && ok == (IDS != [])
    ensures ServerFirstOutcome(states, LooksOf(cb), rejected, ok, S, G, MC, cen, V, IDS, L, msgs)
  {
    var sp := InitialSpawn(states);
    var ids;
    ok, V, id, ids, msgs, S, G, MC, cen := ServerFind(map[], 0, sp.ops, sp.sts, LooksOf(cb), rejected);
    L := LatestOf(ids);
    LatestGiven(ids);
    if ok {
      IDS := [ids];
      LatestReadable(V, ids);
    } else {
      IDS := [];
    }
  }

  /** `setup(d)` after its checks of the functions and the initial
      states: reset, run and mirror the first step, check the detectors and
      post the first `ready` message with them. When a clique job of the
      first step is rejected there is no tuple, and posting the message
      throws. */
  method ServerBoot(states: seq<int>, detectors: DetectorsReply, cb: Callbacks, rejected: bool)
    returns (r: Outcome<bool>, V: Arena, id: nat, IDS: seq<Ids>, L: Latest, msgs: seq<Mirror>, sent: seq<Message>,
             ghost S: Arena, ghost G: seq<Group>, ghost MC: seq<seq<seq<nat>>>, ghost cen: seq<Census>)
    requires Installed(cb)
    ensures Inv(V, id, IDS, L, cb)
    ensures BootOutcome(states, DetectorsChecked(detectors), LooksOf(cb), rejected, r, S, G, MC, cen, V, IDS, L, msgs, sent)
  {
    var ok;
    ok, V, id, IDS, L, msgs, S, G, MC, cen := ServerFirstStep(states, cb, rejected);
    var dets := DetectorsChecked(detectors);
    sent := [];
    if dets.Threw? {
      r := Threw(dets.err);
    } else if !ok {
      // `postReady` spreads `IDS[IDS.length-1]`, which is undefined
      r := Threw(Error.TypeError("ids is not iterable"));
    } else {
      var data := ReadyData(V, 1, IDS[0], L);
      sent := [Message(data, Some(dets.value))];
      r := Done(true);
    }
  }

  /** `setup(d)` of `server/model.mjs` on values: install the user's
      functions, check the initial states and run the first step. */
  method ServerSetup(model: Option<ModelText>, cb0: Callbacks, V0: Arena, id0: nat, IDS0: seq<Ids>, L0: Latest, rejected: bool)
    returns (r: Outcome<bool>, cb: Callbacks, V: Arena, id: nat, IDS: seq<Ids>, L: Latest, msgs: seq<Mirror>, sent: seq<Message>,
             ghost S: Arena, ghost G: seq<Group>, ghost MC: seq<seq<seq<nat>>>, ghost cen: seq<Census>)
    requires Inv(V0, id0, IDS0, L0, cb0)
    ensures Inv(V, id, IDS, L, cb)
    ensures SetupOutcome(model, cb0, V0, id0, IDS0, L0, rejected, r, cb, V, id, IDS, L, msgs, sent, S, G, MC, cen)
  {
    S, G, MC, cen, msgs, sent := map[], [], [], [], [], [];
    cb, V, id, IDS, L := cb0, V0, id0, IDS0, L0;
    if model.None? {
      r := Threw(Error.TypeError("Missing model."));
      return;
    }
    var mt := model.value;
    var missing;
    cb, missing := InstallAll(cb0, mt, ServerNames);
    if missing.Some? {
      if IDS0 != [] {
        InstallKeepsInstalled(cb0, mt, ServerNames);
      }
      r := Threw(MissingFunction(missing.value));
      return;
    }
    InstallGivesAll(cb0, mt, ServerNames);
    var init := InitChecked(mt.init.value);
    if init.Threw? {
      r := Threw(init.err);
      return;
    }
    r, V, id, IDS, L, msgs, sent, S, G, MC, cen := ServerBoot(init.value, mt.detectors.value, cb, rejected);
  }

  class Server {
    /** `fmem`, the factorial memo of `probs`. */
    var fmem: seq<nat>
    /** Vertex id to vertex. */
    var V: Arena
    /** The largest id given out. */
    var id: nat
    /** One id tuple per step. */
    var IDS: seq<Ids>
    /** `Lo`, `Ls`, `Lc` and `Ll`. */
    var L: Latest
    /** The functions installed on the model API. */
    var cb: Callbacks
    /** The `ready` messages posted to the parent so far. */
    var posted: seq<Message>
    /** The layer messages posted to the clique workers so far. */
    var mirrored: seq<Mirror>

    ghost predicate Valid()
      reads this
    {
      FactMemo(fmem) && Inv(V, id, IDS, L, cb)
    }

    /** The worker as it starts. The memo is seeded with 0! and 1!. */
    constructor()
      ensures Valid() && fmem == CorrectedSeed && V == map[] && id == 0 && IDS == [] && L == Latest([], [], [], [])
      ensures posted == [] && mirrored == []
    {
      fmem := CorrectedSeed;
      V, id, IDS, L := map[], 0, [], Latest([], [], [], []);
      cb := Callbacks(None, None, None);
      posted, mirrored := [], [];
    }

    /** `setup(d)`: install the user's functions, check the initial states,
        reset, run and mirror the first step, check the detectors and post
        the first `ready` message with them. When a clique job of the first
        step is rejected there is no tuple, and posting the message
        throws. */
    method Setup(model: Option<ModelText>, rejected: bool)
      returns (r: Outcome<bool>, ghost msgs: seq<Mirror>, ghost sent: seq<Message>,
               ghost S: Arena, ghost G: seq<Group>, ghost MC: seq<seq<seq<nat>>>, ghost cen: seq<Census>)
      requires Valid()
      modifies this
      ensures Valid() && fmem == old(fmem) && mirrored == old(mirrored) + msgs && posted == old(posted) + sent
      ensures SetupOutcome(model, old(cb), old(V), old(id), old(IDS), old(L), rejected, r, cb, V, id, IDS, L, msgs, sent,
                           S, G, MC, cen)
    {
      var cb1, V1, id1, IDS1, L1, msgs1, sent1;
      r, cb1, V1, id1, IDS1, L1, msgs1, sent1, S, G, MC, cen := ServerSetup(model, cb, V, id, IDS, L, rejected);
      cb, V, id, IDS, L := cb1, V1, id1, IDS1, L1;
      mirrored, posted, msgs, sent := mirrored + msgs1, posted + sent1, msgs1, sent1;
    }

    /** `next(d)`: filter the cliques (observer 1 or 2 with the draws
        `rand`, or the cap `cap` of cliques per location, none when 0),
        call the operator on the states of each remaining clique (at most
        `max` of them, shuffled with `draws`, when `max` is not 0), label
        and mirror the new step and post it. An abort found by the filter
        (`filterPolls`) or a rejected clique job rebuilds the current step
        from `IDS`; a bad operator reply throws. */
    method Next(observer: nat, cap: nat, max: nat, rand: nat -> real, draws: nat -> nat -> real,
                filterPolls: nat -> bool, rejected: bool)
      returns (r: Outcome<bool>, ghost sent: seq<Message>, ghost msgs: seq<Mirror>,
               ghost fok: bool, ghost Vf: Arena, ghost Lcf: seq<nat>, ghost sp: Spawn,
               ghost S: Arena, ghost G: seq<Group>, ghost MC: seq<seq<seq<nat>>>, ghost cen: seq<Census>)
      requires Valid() && UnitOracle(draws)
      modifies this
      ensures Valid() && cb == old(cb)
      ensures posted == old(posted) + sent && mirrored == old(mirrored) + msgs
      ensures old(IDS) == [] ==> r == Threw(RangeError("Setup the model first.")) && unchanged(this)
      ensures old(IDS) != [] ==>
        ServerNextOutcome(old(V), old(id), old(IDS), old(L), cb, observer, cap, max, rand, draws, filterPolls, rejected,
                          r, fok, Vf, Lcf, sp, S, G, MC, cen, V, id, IDS, L, sent, msgs)
      ensures old(IDS) != [] && observer == 2 ==>
        r == Threw(ObserveWholeAsWritten(old(L).cliques).err) && V == old(V) && id == old(id) && IDS == old(IDS) && L == old(L) &&
        sent == [] && msgs == []
      ensures observer != 1 ==> fmem == old(fmem)
    {
      if IDS == [] {
        S, G, MC, cen, sp, fok, Vf, Lcf := map[], [], [], [], Spawn([], []), true, V, L.cliques;
        sent, msgs := [], [];
        r := Threw(RangeError("Setup the model first."));
        return;
      }
      var m1, V1, id1, IDS1, L1, sent1, msgs1;
      r, m1, V1, id1, IDS1, L1, sent1, msgs1, fok, Vf, Lcf, sp, S, G, MC, cen :=
        ServerNextStep(fmem, V, id, IDS, L, cb, observer, cap, max, rand, draws, filterPolls, rejected);
      fmem, V, id, IDS, L := m1, V1, id1, IDS1, L1;
      posted, mirrored := posted + sent1, mirrored + msgs1;
      sent, msgs := sent1, msgs1;
    }

    /** `prev(d)`: drop the last step, take its operations, states and
        cliques back from the workers, rebuild the step before it and post
        it. The first step cannot be dropped. */
    method Prev() returns (r: Outcome<bool>)
      requires Valid()
      modifies this
      ensures Valid() && cb == old(cb) && fmem == old(fmem)
      ensures old(IDS) == [] ==> r == Threw(RangeError("Reset the model first.")) && unchanged(this)
      ensures |old(IDS)| == 1 ==> r == Threw(RangeError("Can't erase the initial state.")) && unchanged(this)
      ensures |old(IDS)| > 1 ==>
        var gone := old(IDS)[|old(IDS)| - 1];
        r == Done(true) && IDS == old(IDS)[..|old(IDS)| - 1] &&
        V == Cut(old(V), IDS[|IDS| - 1].loc) && id == IDS[|IDS| - 1].loc && L == LatestOf(IDS[|IDS| - 1]) &&
        Readable(V, IDS[|IDS| - 1], L) &&
        mirrored == old(mirrored) + [DelLayer(gone.prevLoc + 1, gone.clique)] &&
        posted == old(posted) + [Message(ReadyFor(V, |IDS|, IDS[|IDS| - 1], L), None)]
    {
      if IDS == [] {
        return Threw(RangeError("Reset the model first."));
      }
      if |IDS| == 1 {
        return Threw(RangeError("Can't erase the initial state."));
      }
      var gone := IDS[|IDS| - 1];
      mirrored := mirrored + [DelLayer(gone.prevLoc + 1, gone.clique)];
      var sent;
      V, id, IDS, L, sent := PrevStep(V, id, IDS, L, cb);
      posted := posted + sent;
      r := Done(true);
    }
  }
}
