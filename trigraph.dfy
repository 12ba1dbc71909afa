/** The class `Trigraph` of `modules/Trigraph.mjs`: its fields, and the
    methods that update them in place. Each method hands the fields, as
    one `Store` value, to the step it models and stores what comes back. */
module Trigraphs {
  import opened Factorials
  import opened EngineOper
  import opened TrigraphGraph
  import opened TrigraphSpawn
  import opened TrigraphPlaced
  import opened TrigraphStore
  import opened TrigraphStep
  import opened TrigraphNext
  import opened TrigraphRetreat
  import opened TrigraphPrev

  class Trigraph {
    /** Vertex id to vertex. */
    var V: Vertices
    /** Level to the vertices of that level. */
    var L: map<nat, seq<nat>>
    /** Step to the handles of its locations. */
    var T: map<nat, seq<nat>>
    /** Coordinate to the handles of its locations. */
    var S: map<string, seq<nat>>
    /** Every location made so far, by handle. */
    var locs: seq<Location>
    /** The largest id given out. */
    var id: nat
    /** The current level. */
    var level: nat
    /** The factorial memo. */
    var factCache: seq<nat>
    /** The user's `init`, `oper`, `eq` and `coord`. */
    var params: Params

    function State(): Store
      reads this
    {
      Store(V, L, T, S, locs, id, level, factCache)
    }

    ghost predicate Valid()
      reads this
    {
      Shape(State())
    }

    /** An empty trigraph whose memo is seeded with `[0, 1]`. */
    constructor(p: Params)
      ensures Valid() && State() == Empty(SourceSeed) && params == p
    {
      V, L, T, S, locs, id, level := map[], map[], map[], map[], [], 0, 0;
      factCache := SourceSeed;
      params := p;
      new;
      EmptyShape(SourceSeed);
    }

    /** Stores the fields of `st`. */
    method Load(st: Store)
      modifies this
      ensures State() == st && params == old(params)
    {
      V, L, T, S, locs, id, level, factCache := st.V, st.L, st.T, st.S, st.locs, st.id, st.level, st.memo;
    }

    /** `getStep(lev)`: the step of level `lev`, of the current level when
        `lev` is 0. */
    function GetStep(lev: nat): (r: nat)
      reads this
      ensures var l := if lev == 0 then level else lev; 3 * r - 1 <= l <= 3 * r + 1
    {
      TrigraphStore.GetStep(level, lev)
    }

    /** `fact(n)`: the memo grows up to `n` and entry `n` is returned; it is
        n! for every n but 0, for which the seed answers 0. */
    method Fact(n: nat) returns (r: nat)
      requires Valid()
      modifies this`factCache
      ensures Valid() && factCache == Grow(old(factCache), n) && n < |factCache| && r == factCache[n]
      ensures n >= 1 ==> r == Factorials.Fact(n)
    {
      var m;
      m, r := MemoFactorial(factCache, n);
      factCache := m;
    }

    /** `reset(params)`: clear the vertices, levels, locations, counter and
        level, keep the memo, install `p` and run the first step. */
    method Reset(p: Params) returns (r: Outcome<nat>, ghost run: Run, ghost sp: Space)
      requires Valid()
      modifies this
      ensures Valid() && params == p
      ensures NextOutcome(Empty(old(factCache)), p, State(), r, run, sp)
    {
      params := p;
      EmptyShape(factCache);
      var st2;
      st2, r, run, sp := NextStep(Empty(factCache), p);
      Load(st2);
    }

    /** `next()` with no observer: the new operations and states of the
        step, their locations and cliques, and three new levels; the reply
        is the number of new cliques, or the `TypeError` a bad `init` or
        `oper` reply raises. */
    method Next() returns (r: Outcome<nat>, ghost run: Run, ghost sp: Space)
      requires Valid()
      modifies this
      ensures Valid() && params == old(params)
      ensures NextOutcome(old(State()), params, State(), r, run, sp)
      ensures r.Done? && run.sp.sts != [] ==> level == old(level) + 3 && r.value > 0
    {
      var st2;
      st2, r, run, sp := NextStep(State(), params);
      Load(st2);
    }

    /** `prev()`: undo the last step unless it is the first; the answer says
        whether another step can still be undone. */
    method Prev() returns (more: bool)
      requires Valid()
      modifies this
      ensures Valid() && params == old(params)
      ensures old(level) <= 3 ==> State() == old(State()) && !more
      ensures old(level) > 3 ==> State() == Retreat(old(State())) && level == old(level) - 3 && more == (level > 3)
    {
      var st2;
      st2, more := TrigraphPrev.Prev(State());
      Load(st2);
    }
  }
}
