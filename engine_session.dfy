/** The state both engines keep between actions (`V`, `id`, `IDS` and the
    latest lists) and the parts of `next`, `prev` and `reconstruct` that
    `lib/wwmodel.js` and `server/model.mjs` share, as methods over values
    that each engine's class applies to its fields. */
module EngineSession {
  import opened SeqUtil
  import opened Layout
  import opened EngineCore
  import opened EngineCliques
  import opened EngineFind
  import opened EngineFilter
  import opened EngineOper
  import opened EngineSetup
  import opened EngineReconstruct
  import opened EngineReady

  /** A `ready` message: its data, and the detectors only `setup` adds. */
  datatype Message = Message(data: Ready, detectors: Option<seq<string>>)

  /** Every tuple of `IDS` is ordered and starts where the one before it
      ends; the first starts at 0. */
  ghost predicate Chained(IDS: seq<Ids>) {
    (forall k :: 0 <= k < |IDS| ==> Ordered(IDS[k])) &&
    (IDS != [] ==> IDS[0].prevLoc == 0) &&
    (forall k :: 0 <= k < |IDS| - 1 ==> IDS[k + 1].prevLoc == IDS[k].loc)
  }

  /** Every clique of `Lc` is an id already given out. */
  ghost predicate CliquesGiven(L: Latest, id: nat) {
    forall c :: c in L.cliques ==> c <= id
  }

  /** What holds between two actions: the arena is dense with parents below
      children, the steps are chained and the last one ends at `id`, and
      once a step exists the user's functions are installed. */
  ghost predicate Inv(V: Arena, id: nat, IDS: seq<Ids>, L: Latest, cb: Callbacks) {
    Dense(V, id) && Below(V) && Chained(IDS) && CliquesGiven(L, id) &&
    (IDS != [] ==> id == IDS[|IDS| - 1].loc && Installed(cb))
  }

  /** A tuple that starts where the last one ends extends the chain. */
  lemma ChainedSnoc(IDS: seq<Ids>, ids: Ids)
    requires Chained(IDS) && Ordered(ids)
    requires if IDS == [] then ids.prevLoc == 0 else ids.prevLoc == IDS[|IDS| - 1].loc
    ensures Chained(IDS + [ids])
  {
  }

  /** The cliques of the lists a tuple lays out are ids up to its end. */
  lemma LatestGiven(ids: Ids)
    requires Ordered(ids)
    ensures CliquesGiven(LatestOf(ids), ids.loc)
  {
  }

  /** The user's `show` and `coord`. */
  function LooksOf(cb: Callbacks): Looks
    requires Installed(cb)
  {
    Looks(cb.show.value, cb.coord.value)
  }

  /** The operation and states `setup` gives the first step: one operation
      without parents, the parent of every initial state. */
  function InitialSpawn(states: seq<int>): (sp: Spawn)
    ensures |sp.ops| == 1 && sp.ops[0] == [] && |sp.sts| == |states|
    ensures forall t :: 0 <= t < |sp.sts| ==> sp.sts[t] == NewState(states[t], 0)
  {
    Spawn([[]], Tagged(states, 0))
  }

  /** What the cap of the filter leaves: with no cap nothing changes; with a
      cap the loop over the locations `Ll` runs to its end, or up to the
      location after which the job was found aborted. */
  ghost predicate Filtered(V0: Arena, L0: Latest, N: nat, proceed: nat -> bool, V: Arena, Lc: seq<nat>, ok: bool) {
    if N == 0 then V == V0 && Lc == L0.cliques && ok
    else
      (ok ==> (V, Lc) == CapTurns(V0, L0.locs, N)) &&
      (!ok ==> exists k :: 0 <= k < |L0.locs| && !proceed(k) && (V, Lc) == CapTurns(V0, L0.locs[..k + 1], N))
  }

  /** `else if (maxcliquesperloc) { ... }` of `filter(d)`. */
  method CapFilter(V0: Arena, id: nat, L0: Latest, N: nat, proceed: nat -> bool) returns (V: Arena, Lc: seq<nat>, ok: bool)
    requires Dense(V0, id) && Below(V0) && CliquesGiven(L0, id)
    ensures Dense(V, id) && Below(V) && CliquesGiven(L0.(cliques := Lc), id)
    ensures Filtered(V0, L0, N, proceed, V, Lc, ok)
  {
    V, Lc, ok := V0, L0.cliques, true;
    if N > 0 {
      V, Lc, ok := CapCliques(V0, L0.locs, N, proceed);
      if ok {
        CapTurnsKeep(V0, L0.locs, N, id);
      } else {
        var k :| 0 <= k < |L0.locs| && !proceed(k) && (V, Lc) == CapTurns(V0, L0.locs[..k + 1], N);
        CapTurnsKeep(V0, L0.locs[..k + 1], N, id);
      }
    }
  }

  /** `reconstruct()` from an arena that may hold vertices above the last
      step of `IDS`. */
  method Rebuild(V0: Arena, id0: nat, IDS: seq<Ids>, cb: Callbacks) returns (V: Arena, id: nat, L: Latest)
    requires Dense(V0, id0) && Below(V0) && Chained(IDS) && IDS != [] && IDS[|IDS| - 1].loc <= id0 && Installed(cb)
    ensures Inv(V, id, IDS, L, cb)
    ensures V == Cut(V0, IDS[|IDS| - 1].loc) && id == IDS[|IDS| - 1].loc && L == LatestOf(IDS[|IDS| - 1])
  {
    var last := IDS[|IDS| - 1];
    V, id, L := Reconstruct(V0, id0, last);
    TruncateIsCut(V0, id0, last.loc, V);
    LatestGiven(last);
  }

  /** What `findCliques` followed by either the new step's tuple and
      message, or `reconstruct()`, leaves. */
  ghost predicate SearchOutcome(V0: Arena, id0: nat, IDS0: seq<Ids>, sp: Spawn, looks: Looks, proceed: nat -> bool,
                                ok: bool, S: Arena, G: seq<Group>, MC: seq<seq<seq<nat>>>, cen: seq<Census>,
                                V: Arena, id: nat, IDS: seq<Ids>, L: Latest, sent: seq<Message>) {
    Layered(V0, id0, sp.ops, sp.sts, looks, S, G) && Searched(S, G, MC) &&
    (!ok ==>
      IDS == IDS0 && V == V0 && id == id0 && IDS != [] && L == LatestOf(IDS[|IDS| - 1]) && sent == [] &&
      |MC| < |G| && !proceed(|MC|)) &&
    (ok ==>
      |IDS| == |IDS0| + 1 && IDS[..|IDS0|] == IDS0 &&
      Stepped(V0, id0, sp.ops, sp.sts, looks, S, G, MC, cen, V, IDS[|IDS| - 1]) &&
      Cut(V, id0) == V0 && L == LatestOf(IDS[|IDS| - 1]) &&
      Readable(V, IDS[|IDS| - 1], L) && sent == [Message(ReadyFor(V, |IDS|, IDS[|IDS| - 1], L), None)])
  }

  /** The search of `next(d)` in `lib/wwmodel.js` on the operations and
      states of `sp`: `findCliques(d)`, which may find the job aborted
      (`proceed`), and then `reconstruct()`, or else the new tuple and the
      `ready` message of the step. */
  method SearchStep(V0: Arena, id0: nat, IDS0: seq<Ids>, L0: Latest, cb: Callbacks, sp: Spawn, proceed: nat -> bool)
    returns (ok: bool, V: Arena, id: nat, IDS: seq<Ids>, L: Latest, sent: seq<Message>,
             ghost S: Arena, ghost G: seq<Group>, ghost MC: seq<seq<seq<nat>>>, ghost cen: seq<Census>)
    requires Inv(V0, id0, IDS0, L0, cb) && IDS0 != [] && SpawnShape(sp, L0.cliques)
    ensures Inv(V, id, IDS, L, cb)
    ensures SearchOutcome(V0, id0, IDS0, sp, LooksOf(cb), proceed, ok, S, G, MC, cen, V, id, IDS, L, sent)
  {
    assert StepInput(V0, id0, sp.ops, sp.sts) by {
      forall k, p | 0 <= k < |sp.ops| && p in sp.ops[k] ensures p <= id0 {
        assert p == sp.ops[k][0];
      }
    }
    var ids;
    ok, V, id, ids, S, G, MC, cen := FindCliques(V0, id0, sp.ops, sp.sts, LooksOf(cb), proceed);
    CutUndoesStep(V0, id0, V, id);
    IDS := IDS0;
    if !ok {
      V, id, L := Rebuild(V, id, IDS, cb);
      sent := [];
      return;
    }
    ChainedSnoc(IDS0, ids);
    LatestGiven(ids);
    LatestReadable(V, ids);
    var data := ReadyData(V, |IDS0| + 1, ids, LatestOf(ids));
    IDS, L, sent := IDS0 + [ids], LatestOf(ids), [Message(data, None)];
  }

  /** `prev(d)` after its checks: drop the last step, rebuild the one
      before it and post it. */
  method PrevStep(V0: Arena, id0: nat, IDS0: seq<Ids>, L0: Latest, cb: Callbacks)
    returns (V: Arena, id: nat, IDS: seq<Ids>, L: Latest, sent: seq<Message>)
    requires Inv(V0, id0, IDS0, L0, cb) && |IDS0| > 1
    ensures Inv(V, id, IDS, L, cb)
    ensures IDS == IDS0[..|IDS0| - 1] && V == Cut(V0, IDS[|IDS| - 1].loc) && id == IDS[|IDS| - 1].loc
    ensures L == LatestOf(IDS[|IDS| - 1]) && Readable(V, IDS[|IDS| - 1], L)
    ensures sent == [Message(ReadyFor(V, |IDS|, IDS[|IDS| - 1], L), None)]
  {
    IDS := IDS0[..|IDS0| - 1];
    V, id, L := Rebuild(V0, id0, IDS, cb);
    var last := IDS[|IDS| - 1];
    LatestReadable(V, last);
    var data := ReadyData(V, |IDS|, last, L);
    sent := [Message(data, None)];
  }
}
