/** What the server worker's `next(d)` and `setup(d)` leave, one level
    above the outcomes of their parts. */
module ServerActions {
  import opened SeqUtil
  import opened CausalGraph
  import opened CliqueWorker
  import opened Layout
  import opened Factorials
  import opened EngineCore
  import opened EngineCliques
  import opened EngineFind
  import opened EngineFilter
  import opened EngineOper
  import opened EngineSetup
  import opened EngineReconstruct
  import opened EngineReady
  import opened EngineSession
  import opened EngineObserve
  import opened EngineMirror
  import opened ServerOutcome

  /** What the server's `next(d)` leaves once a step exists. */
  ghost predicate ServerNextOutcome(V0: Arena, id0: nat, IDS0: seq<Ids>, L0: Latest, cb: Callbacks,
                                    observer: nat, cap: nat, max: nat, rand: nat -> real, draws: nat -> nat -> real,
                                    filterPolls: nat -> bool, rejected: bool,
                                    r: Outcome<bool>, fok: bool, Vf: Arena, Lcf: seq<nat>, sp: Spawn,
                                    S: Arena, G: seq<Group>, MC: seq<seq<seq<nat>>>, cen: seq<Census>,
                                    V: Arena, id: nat, IDS: seq<Ids>, L: Latest, sent: seq<Message>, msgs: seq<Mirror>)
    requires Installed(cb) && UnitOracle(draws)
  {
    ServerFiltered(V0, L0, observer, cap, rand, filterPolls, Vf, Lcf, fok) &&
    (observer != 2 && !fok ==>
      r == Done(false) && IDS == IDS0 && IDS != [] && V == Cut(Vf, IDS[|IDS| - 1].loc) && id == id0 &&
      L == LatestOf(IDS[|IDS| - 1]) && sent == [] && msgs == []) &&
    (fok ==>
      ServerStepOutcome(Vf, id0, IDS0, L0.(cliques := Lcf), cb, max, draws, rejected, r, sp, S, G, MC, cen,
                        V, id, IDS, L, sent, msgs))
  }

  /** What `setup(d)` leaves, from the functions `cb0` and the state
      before it: no model, a missing function, malformed initial states, or
      the first step. Only the installed functions change until the
      initial states are checked. */
  ghost predicate SetupOutcome(model: Option<ModelText>, cb0: Callbacks, V0: Arena, id0: nat, IDS0: seq<Ids>, L0: Latest,
                               rejected: bool, r: Outcome<bool>, cb: Callbacks, V: Arena, id: nat, IDS: seq<Ids>, L: Latest,
                               msgs: seq<Mirror>, sent: seq<Message>,
                               S: Arena, G: seq<Group>, MC: seq<seq<seq<nat>>>, cen: seq<Census>) {
    (model.None? ==>
      r == Threw(Error.TypeError("Missing model.")) && cb == cb0 &&
      V == V0 && id == id0 && IDS == IDS0 && L == L0 && sent == [] && msgs == []) &&
    (model.Some? && Install(cb0, model.value, ServerNames).1.Some? ==>
      r == Threw(MissingFunction(Install(cb0, model.value, ServerNames).1.value)) &&
      cb == Install(cb0, model.value, ServerNames).0 &&
      V == V0 && id == id0 && IDS == IDS0 && L == L0 && sent == [] && msgs == []) &&
    (model.Some? && Install(cb0, model.value, ServerNames).1.None? ==>
      var mt := model.value;
      mt.init.Some? && mt.detectors.Some? && cb == Callbacks(mt.oper, mt.coord, mt.show) && Installed(cb) &&
      (InitChecked(mt.init.value).Threw? ==>
        r == Threw(InitChecked(mt.init.value).err) &&
        V == V0 && id == id0 && IDS == IDS0 && L == L0 && sent == [] && msgs == []) &&
      (InitChecked(mt.init.value).Done? ==>
        BootOutcome(InitChecked(mt.init.value).value, DetectorsChecked(mt.detectors.value), LooksOf(cb), rejected,
                    r, S, G, MC, cen, V, IDS, L, msgs, sent)))
  }
}
