/** The engine of the browser worker `lib/wwmodel.js`: the worker's global
    state (`V`, `id`, `IDS` and the latest lists `Lo`, `Ls`, `Lc`, `Ll`) as
    one object, and its three actions `setup`, `next` and `prev`. The user's
    functions, the job's abort polls and the random draws of `shuffle` are
    parameters; the `ready` messages the worker posts are collected in
    `posted`. */
module LocalEngine {
  import opened Layout
  import opened EngineCore
  import opened EngineCliques
  import opened EngineFind
  import opened EngineFilter
  import opened EngineOper
  import opened EngineSetup
  import opened EngineReconstruct
  import opened EngineReady
  import opened EngineSession

  /** What the first step of `setup` leaves: the search of the initial
      states, and either the first tuple or, when the job was found aborted,
      no tuple at all. */
  ghost predicate FirstOutcome(states: seq<int>, looks: Looks, proceed: nat -> bool, ok: bool,
                               S: Arena, G: seq<Group>, MC: seq<seq<seq<nat>>>, cen: seq<Census>,
                               V: Arena, IDS: seq<Ids>, L: Latest) {
    var sp := InitialSpawn(states);
    Layered(map[], 0, sp.ops, sp.sts, looks, S, G) && Searched(S, G, MC) &&
    (!ok ==> IDS == [] && |MC| < |G| && !proceed(|MC|)) &&
    (ok ==> |IDS| == 1 && Stepped(map[], 0, sp.ops, sp.sts, looks, S, G, MC, cen, V, IDS[0]) && L == LatestOf(IDS[0]))
  }

  /** The reset of `setup(d)` and its `findCliques(d)` on one operation
      without parents that has every initial state. */
  method FirstStep(states: seq<int>, cb: Callbacks, proceed: nat -> bool)
    returns (ok: bool, V: Arena, id: nat, IDS: seq<Ids>, L: Latest,
             ghost S: Arena, ghost G: seq<Group>, ghost MC: seq<seq<seq<nat>>>, ghost cen: seq<Census>)
    requires Installed(cb)
    ensures Inv(V, id, IDS, L, cb)
    ensures FirstOutcome(states, LooksOf(cb), proceed, ok, S, G, MC, cen, V, IDS, L)
    ensures ok == (IDS != []) && (ok ==> Readable(V, IDS[0], L))
  {
    var sp := InitialSpawn(states);
    var ids;
    ok, V, id, ids, S, G, MC, cen := FindCliques(map[], 0, sp.ops, sp.sts, LooksOf(cb), proceed);
    L := LatestOf(ids);
    LatestGiven(ids);
    if ok {
      IDS := [ids];
      LatestReadable(V, ids);
    } else {
      IDS := [];
    }
  }

  /** What the operator phase and the search of `next(d)` leave, from the
      filtered state: a bad operator reply throws with no latest operations
      or states; otherwise the search decides. */
  ghost predicate StepOutcome(V0: Arena, id0: nat, IDS0: seq<Ids>, L0: Latest, cb: Callbacks, max: nat,
                              draws: nat -> nat -> real, proceed: nat -> bool, r: Outcome<bool>, sp: Spawn,
                              S: Arena, G: seq<Group>, MC: seq<seq<seq<nat>>>, cen: seq<Census>,
                              V: Arena, id: nat, IDS: seq<Ids>, L: Latest, sent: seq<Message>)
    requires Installed(cb) && UnitOracle(draws)
  {
    var o := Spawned(V0, L0.cliques, max, cb.oper.value, draws, |L0.cliques|);
    (o.Threw? ==>
      r == Threw(o.err) && IDS == IDS0 && V == V0 && id == id0 && L == Latest([], [], L0.cliques, L0.locs) && sent == []) &&
    (o.Done? ==>
      sp == o.value && SpawnShape(sp, L0.cliques) && r.Done? &&
      SearchOutcome(V0, id0, IDS0, sp, LooksOf(cb), proceed, r.value, S, G, MC, cen, V, id, IDS, L, sent))
  }

  /** The `Lc.forEach` of `next(d)` that calls the operator, then the
      search. */
  method OperAndSearch(V0: Arena, id0: nat, IDS0: seq<Ids>, L0: Latest, cb: Callbacks, max: nat,
                       draws: nat -> nat -> real, proceed: nat -> bool)
    returns (r: Outcome<bool>, V: Arena, id: nat, IDS: seq<Ids>, L: Latest, sent: seq<Message>,
             ghost sp: Spawn, ghost S: Arena, ghost G: seq<Group>, ghost MC: seq<seq<seq<nat>>>, ghost cen: seq<Census>)
    requires Inv(V0, id0, IDS0, L0, cb) && IDS0 != [] && UnitOracle(draws)
    ensures Inv(V, id, IDS, L, cb)
    ensures StepOutcome(V0, id0, IDS0, L0, cb, max, draws, proceed, r, sp, S, G, MC, cen, V, id, IDS, L, sent)
  {
    S, G, MC, cen, sp := map[], [], [], [], Spawn([], []);
    var o := OperPhase(V0, L0.cliques, max, cb.oper.value, draws);
    SpawnedShape(V0, L0.cliques, max, cb.oper.value, draws, |L0.cliques|);
    if o.Threw? {
      r, V, id, IDS, L, sent := Threw(o.err), V0, id0, IDS0, Latest([], [], L0.cliques, L0.locs), [];
      return;
    }
    sp := o.value;
    var ok;
    ok, V, id, IDS, L, sent, S, G, MC, cen := SearchStep(V0, id0, IDS0, L0, cb, o.value, proceed);
    r := Done(ok);
  }

  /** What `next(d)` leaves once a step exists: the filter's cap (`Vf`,
      `Lcf`) and, when it ran to its end, the operator phase and the search;
      when it found the job aborted, the current step rebuilt from `IDS`. */
  ghost predicate NextOutcome(V0: Arena, id0: nat, IDS0: seq<Ids>, L0: Latest, cb: Callbacks, cap: nat, max: nat,
                              draws: nat -> nat -> real, filterPolls: nat -> bool, searchPolls: nat -> bool,
                              r: Outcome<bool>, fok: bool, Vf: Arena, Lcf: seq<nat>, sp: Spawn,
                              S: Arena, G: seq<Group>, MC: seq<seq<seq<nat>>>, cen: seq<Census>,
                              V: Arena, id: nat, IDS: seq<Ids>, L: Latest, sent: seq<Message>)
    requires Installed(cb) && UnitOracle(draws)
  {
    Filtered(V0, L0, cap, filterPolls, Vf, Lcf, fok) &&
    (!fok ==>
      r == Done(false) && IDS == IDS0 && IDS != [] && V == Cut(Vf, IDS[|IDS| - 1].loc) && id == id0 &&
      L == LatestOf(IDS[|IDS| - 1]) && sent == []) &&
    (fok ==>
      StepOutcome(Vf, id0, IDS0, L0.(cliques := Lcf), cb, max, draws, searchPolls, r, sp, S, G, MC, cen, V, id, IDS, L, sent))
  }

  /** `next(d)` after its check, on values. */
  method NextStep(V0: Arena, id0: nat, IDS0: seq<Ids>, L0: Latest, cb: Callbacks, cap: nat, max: nat,
                  draws: nat -> nat -> real, filterPolls: nat -> bool, searchPolls: nat -> bool)
    returns (r: Outcome<bool>, V: Arena, id: nat, IDS: seq<Ids>, L: Latest, sent: seq<Message>,
             ghost fok: bool, ghost Vf: Arena, ghost Lcf: seq<nat>, ghost sp: Spawn,
             ghost S: Arena, ghost G: seq<Group>, ghost MC: seq<seq<seq<nat>>>, ghost cen: seq<Census>)
    requires Inv(V0, id0, IDS0, L0, cb) && IDS0 != [] && UnitOracle(draws)
    ensures Inv(V, id, IDS, L, cb)
    ensures NextOutcome(V0, id0, IDS0, L0, cb, cap, max, draws, filterPolls, searchPolls,
                        r, fok, Vf, Lcf, sp, S, G, MC, cen, V, id, IDS, L, sent)
  {
    S, G, MC, cen, sp := map[], [], [], [], Spawn([], []);
    var Lc, ok;
    V, Lc, ok := CapFilter(V0, id0, L0, cap, filterPolls);
    fok, Vf, Lcf := ok, V, Lc;
    IDS := IDS0;
    if !ok {
      V, id, L := Rebuild(V, id0, IDS, cb);
      r, sent := Done(false), [];
      return;
    }
    r, V, id, IDS, L, sent, sp, S, G, MC, cen := OperAndSearch(V, id0, IDS0, L0.(cliques := Lc), cb, max, draws, searchPolls);
  }

  class Engine {
    /** Vertex id to vertex. */
    var V: Arena
    /** The largest id given out. */
    var id: nat
    /** One id tuple per step. */
    var IDS: seq<Ids>
    /** `Lo`, `Ls`, `Lc` and `Ll`. */
    var L: Latest
    /** The functions installed on the model API. */
    var cb: Callbacks
    /** The `ready` messages posted so far. */
    var posted: seq<Message>

    ghost predicate Valid()
      reads this
    {
      Inv(V, id, IDS, L, cb)
    }

    /** The worker as it starts: no vertices, no steps. */
    constructor()
      ensures Valid() && V == map[] && id == 0 && IDS == [] && L == Latest([], [], [], []) && posted == []
    {
      V, id, IDS, L := map[], 0, [], Latest([], [], [], []);
      cb := Callbacks(None, None, None);
      posted := [];
    }

    /** `setup(d)`: install the user's functions, check the initial states,
        reset, run the first step, check the detectors and post the first
        `ready` message with them. When the search of the first step finds
        the job aborted there is no tuple, and posting the message throws. */
    method Setup(model: Option<ModelText>, proceed: nat -> bool)
      returns (r: Outcome<bool>, ghost S: Arena, ghost G: seq<Group>, ghost MC: seq<seq<seq<nat>>>, ghost cen: seq<Census>)
      requires Valid()
      modifies this
      ensures Valid()
      ensures model.None? ==> r == Threw(TypeError("Missing model.")) && unchanged(this)
      ensures model.Some? && Install(old(cb), model.value, LocalNames).1.Some? ==>
        r == Threw(MissingFunction(Install(old(cb), model.value, LocalNames).1.value)) &&
        cb == Install(old(cb), model.value, LocalNames).0 &&
        V == old(V) && id == old(id) && IDS == old(IDS) && L == old(L) && posted == old(posted)
      ensures model.Some? && Install(old(cb), model.value, LocalNames).1.None? ==>
        var mt := model.value;
        mt.init.Some? && mt.detectors.Some? && cb == Callbacks(mt.oper, mt.coord, mt.show) && Installed(cb) &&
        (InitChecked(mt.init.value).Threw? ==>
          r == Threw(InitChecked(mt.init.value).err) &&
          V == old(V) && id == old(id) && IDS == old(IDS) && L == old(L) && posted == old(posted)) &&
        (InitChecked(mt.init.value).Done? ==>
          var ok := IDS != [];
          FirstOutcome(InitChecked(mt.init.value).value, LooksOf(cb), proceed, ok, S, G, MC, cen, V, IDS, L) &&
          (DetectorsChecked(mt.detectors.value).Threw? ==>
            r == Threw(DetectorsChecked(mt.detectors.value).err) && posted == old(posted)) &&
          (DetectorsChecked(mt.detectors.value).Done? && !ok ==>
            r.Threw? && r.err.TypeError? && posted == old(posted)) &&
          (DetectorsChecked(mt.detectors.value).Done? && ok ==>
            r == Done(true) && Readable(V, IDS[0], L) &&
            posted == old(posted) + [Message(ReadyFor(V, 1, IDS[0], L), Some(DetectorsChecked(mt.detectors.value).value))]))
    {
      S, G, MC, cen := map[], [], [], [];
      if model.None? {
        r := Threw(TypeError("Missing model."));
        return;
      }
      var mt := model.value;
      var cb1, missing := InstallAll(cb, mt, LocalNames);
      if missing.Some? {
        if IDS != [] {
          InstallKeepsInstalled(cb, mt, LocalNames);
        }
        cb := cb1;
        r := Threw(MissingFunction(missing.value));
        return;
      }
      InstallGivesAll(cb, mt, LocalNames);
      cb := cb1;
      var init := InitChecked(mt.init.value);
      if init.Threw? {
        r := Threw(init.err);
        return;
      }
      var ok;
      ok, V, id, IDS, L, S, G, MC, cen := FirstStep(init.value, cb, proceed);
      var dets := DetectorsChecked(mt.detectors.value);
      if dets.Threw? {
        r := Threw(dets.err);
      } else if !ok {
        // `postReady` spreads `IDS[IDS.length-1]`, which is undefined
        r := Threw(TypeError("ids is not iterable"));
      } else {
        var data := ReadyData(V, 1, IDS[0], L);
        posted := posted + [Message(data, Some(dets.value))];
        r := Done(true);
      }
    }

    /** `next(d)` with no observer: cap the cliques of each location
        (`cap`, none when 0), call the operator on the states of each
        remaining clique (at most `max` of them, shuffled with `draws`, when
        `max` is not 0), label the new operations and states, search their
        cliques and post the step. An abort found by the filter
        (`filterPolls`) or by the search (`searchPolls`) rebuilds the
        current step from `IDS`; a bad operator reply throws, leaving the
        filtered cliques in `Lc` and no latest operations or states. `Vf`
        and `Lcf` are the arena and cliques the filter leaves, `sp` what the
        operator phase produced, and the rest the step's search. */
    method Next(cap: nat, max: nat, draws: nat -> nat -> real, filterPolls: nat -> bool, searchPolls: nat -> bool)
      returns (r: Outcome<bool>, ghost fok: bool, ghost Vf: Arena, ghost Lcf: seq<nat>, ghost sp: Spawn,
               ghost S: Arena, ghost G: seq<Group>, ghost MC: seq<seq<seq<nat>>>, ghost cen: seq<Census>)
      requires Valid() && UnitOracle(draws)
      modifies this
      ensures Valid() && cb == old(cb) && |old(posted)| <= |posted| && posted[..|old(posted)|] == old(posted)
      ensures old(IDS) == [] ==> r == Threw(RangeError("Setup the model first.")) && unchanged(this)
      ensures old(IDS) != [] ==>
        NextOutcome(old(V), old(id), old(IDS), old(L), cb, cap, max, draws, filterPolls, searchPolls,
                    r, fok, Vf, Lcf, sp, S, G, MC, cen, V, id, IDS, L, posted[|old(posted)|..])
    {
      S, G, MC, cen, sp, fok, Vf, Lcf := map[], [], [], [], Spawn([], []), true, V, L.cliques;
      if IDS == [] {
        r := Threw(RangeError("Setup the model first."));
        return;
      }
      var V1, id1, IDS1, L1, sent;
      r, V1, id1, IDS1, L1, sent, fok, Vf, Lcf, sp, S, G, MC, cen :=
        NextStep(V, id, IDS, L, cb, cap, max, draws, filterPolls, searchPolls);
      V, id, IDS, L, posted := V1, id1, IDS1, L1, posted + sent;
      assert posted[|old(posted)|..] == sent;
    }

    /** `prev(d)`: drop the last step and rebuild the one before it. The
        first step cannot be dropped. */
    method Prev() returns (r: Outcome<bool>)
      requires Valid()
      modifies this
      ensures Valid() && cb == old(cb)
      ensures old(IDS) == [] ==> r == Threw(RangeError("Reset the model first.")) && unchanged(this)
      ensures |old(IDS)| == 1 ==> r == Threw(RangeError("Can't erase the initial state.")) && unchanged(this)
      ensures |old(IDS)| > 1 ==>
        r == Done(true) && IDS == old(IDS)[..|old(IDS)| - 1] &&
        V == Cut(old(V), IDS[|IDS| - 1].loc) && id == IDS[|IDS| - 1].loc && L == LatestOf(IDS[|IDS| - 1]) &&
        Readable(V, IDS[|IDS| - 1], L) &&
        posted == old(posted) + [Message(ReadyFor(V, |IDS|, IDS[|IDS| - 1], L), None)]
    {
      if IDS == [] {
        return Threw(RangeError("Reset the model first."));
      }
      if |IDS| == 1 {
        return Threw(RangeError("Can't erase the initial state."));
      }
      var sent;
      V, id, IDS, L, sent := PrevStep(V, id, IDS, L, cb);
      posted := posted + sent;
      r := Done(true);
    }
  }
}
