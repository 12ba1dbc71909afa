/** The operator phase of `next(d)`, shared by both engines: for every clique
    of `Lc` in turn, the states of the clique (at most `maxstatesperclique`
    of them, shuffled, when that option is set) go to the user's `oper`,
    and every list in its reply becomes a new operation whose parent is the
    clique, with one new state per entry. A reply of the wrong shape throws
    a `TypeError`. */
module EngineOper {
  import opened SeqUtil
  import opened EngineCore
  import opened ModelApi
  import opened Combinatorics

  /** The exceptions the engines throw, with their messages. */
  datatype Error = TypeError(msg: string) | RangeError(msg: string) | ReferenceError(msg: string)

  /** Either a value or the exception that stopped the computation. */
  datatype Outcome<T> = Done(value: T) | Threw(err: Error)

  /** One entry of the reply of `oper`: an array of new states, or something
      else. */
  datatype OpReply = NotList | States(states: seq<int>)

  /** The reply of `model.oper(states)`: an array of entries, or something
      else. */
  datatype OperReply = NotArray | Ops(ops: seq<OpReply>)

  /** What the phase produces: the new operations, each as its parent list
      `[c]`, and the new states with the index of their operation. */
  datatype Spawn = Spawn(ops: seq<seq<nat>>, sts: seq<NewState>)

  /** `s.state` of a state vertex. The parents of a clique are always
      states in the engines; any other id would read as 0. */
  function StateValue(V: Arena, s: nat): int {
    if s in V && V[s].kind.State? then V[s].kind.state else 0
  }

  /** `c.parent.map(s => s.state)`. A clique id always names a vertex in
      the engines; one that did not would give no states. */
  function CliqueStates(V: Arena, c: nat): (r: seq<int>)
    ensures c in V ==> |r| == |V[c].parents| && forall k :: 0 <= k < |r| ==> r[k] == StateValue(V, V[c].parents[k])
  {
    if c in V then seq(|V[c].parents|, k requires 0 <= k < |V[c].parents| => StateValue(V, V[c].parents[k])) else []
  }

  /** The draws of `Math.random` that `model.shuffle` makes for clique
      number `i` of the phase: the draw for swap position `k` is
      `draws(i)(k)`. */
  function DrawsFor(draws: nat -> nat -> real, i: nat, n: nat): (r: seq<real>)
    requires UnitOracle(draws)
    ensures |r| == n && UnitDraws(r)
  {
    seq(n, k requires 0 <= k < n => draws(i)(k))
  }

  /** Draws that `Math.random` can make. */
  ghost predicate UnitOracle(draws: nat -> nat -> real) {
    forall i, k :: 0.0 <= draws(i)(k) < 1.0
  }

  /** `if (max && states.length > max) { model.shuffle(states); states.length = max }`. */
  function Sampled(states: seq<int>, max: nat, r: seq<real>): seq<int>
    requires |states| <= |r| && UnitDraws(r)
  {
    if max > 0 && |states| > max then
      ShufflePermutes(states, r, |states| - 1);
      ShuffleFrom(states, r, |states| - 1)[..max]
    else states
  }

  /** The states handed to `oper` are some of the clique's states: all of
      them when there are at most `max` (or no limit), and otherwise exactly
      `max`, each no more often than in the clique. */
  lemma SampledFromClique(states: seq<int>, max: nat, r: seq<real>)
    requires |states| <= |r| && UnitDraws(r)
    ensures max == 0 || |states| <= max ==> Sampled(states, max, r) == states
    ensures max > 0 && |states| > max ==> |Sampled(states, max, r)| == max
    ensures multiset(Sampled(states, max, r)) <= multiset(states)
  {
    if max > 0 && |states| > max {
      var sh := ShuffleFrom(states, r, |states| - 1);
      ShufflePermutes(states, r, |states| - 1);
      assert sh == sh[..max] + sh[max..];
      assert multiset(sh) == multiset(sh[..max]) + multiset(sh[max..]);
    }
  }

  /** `o.forEach(s => Ls.push({ state: s, parent: [op] }))` for the operation
      with index `k`. */
  function Tagged(xs: seq<int>, k: nat): (r: seq<NewState>)
    ensures |r| == |xs| && forall j :: 0 <= j < |r| ==> r[j] == NewState(xs[j], k)
  {
    seq(|xs|, j requires 0 <= j < |xs| => NewState(xs[j], k))
  }

  /** One entry of the reply for clique `c`. */
  function OpSpawn(c: nat, o: OpReply, acc: Spawn): Outcome<Spawn> {
    if o.NotList? then Threw(TypeError("One of the new operations was not an array."))
    else if o.states == [] then Threw(TypeError("One of the new operations had no states."))
    else Done(Spawn(acc.ops + [[c]], acc.sts + Tagged(o.states, |acc.ops|)))
  }

  /** `nos.forEach(...)`: the entries in order, stopping at the first bad one. */
  function OpsSpawn(c: nat, os: seq<OpReply>, acc: Spawn): Outcome<Spawn>
    decreases |os|
  {
    if os == [] then Done(acc)
    else match OpsSpawn(c, os[..|os| - 1], acc)
      case Threw(e) => Threw(e)
      case Done(a) => OpSpawn(c, os[|os| - 1], a)
  }

  /** The turn for clique `c`, number `i` of the phase. */
  function CliqueSpawn(V: Arena, c: nat, i: nat, max: nat, oper: seq<int> -> OperReply,
                       draws: nat -> nat -> real, acc: Spawn): Outcome<Spawn>
    requires UnitOracle(draws)
  {
    var states := CliqueStates(V, c);
    var reply := oper(Sampled(states, max, DrawsFor(draws, i, |states|)));
    if reply.NotArray? then Threw(TypeError("Operator didn't return an array."))
    else OpsSpawn(c, reply.ops, acc)
  }

  /** The phase over the first `n` cliques of `Lc`. */
  function Spawned(V: Arena, Lc: seq<nat>, max: nat, oper: seq<int> -> OperReply,
                   draws: nat -> nat -> real, n: nat): Outcome<Spawn>
    requires UnitOracle(draws) && n <= |Lc|
  {
    if n == 0 then Done(Spawn([], []))
    else match Spawned(V, Lc, max, oper, draws, n - 1)
      case Threw(e) => Threw(e)
      case Done(a) => CliqueSpawn(V, Lc[n - 1], n - 1, max, oper, draws, a)
  }

  /** `Lc.forEach((c, i) => ...)` of `next`. */
  method OperPhase(V: Arena, Lc: seq<nat>, max: nat, oper: seq<int> -> OperReply, draws: nat -> nat -> real)
    returns (r: Outcome<Spawn>)
    requires UnitOracle(draws)
    ensures r == Spawned(V, Lc, max, oper, draws, |Lc|)
  {
    var acc := Spawn([], []);
    for i := 0 to |Lc|
      invariant Spawned(V, Lc, max, oper, draws, i) == Done(acc)
    {
      r := CliqueTurn(V, Lc[i], i, max, oper, draws, acc);
      if r.Threw? {
        SpawnedStops(V, Lc, max, oper, draws, i + 1, |Lc|);
        return;
      }
      acc := r.value;
    }
    r := Done(acc);
  }

  /** A phase that has thrown stays thrown. */
  lemma {:induction false} SpawnedStops(V: Arena, Lc: seq<nat>, max: nat, oper: seq<int> -> OperReply,
                                        draws: nat -> nat -> real, m: nat, n: nat)
    requires UnitOracle(draws) && m <= n <= |Lc| && Spawned(V, Lc, max, oper, draws, m).Threw?
    ensures Spawned(V, Lc, max, oper, draws, n) == Spawned(V, Lc, max, oper, draws, m)
    decreases n
  {
    if n > m {
      SpawnedStops(V, Lc, max, oper, draws, m, n - 1);
    }
  }

  /** The turn of the phase for clique `c`, number `i`. */
  method CliqueTurn(V: Arena, c: nat, i: nat, max: nat, oper: seq<int> -> OperReply,
                    draws: nat -> nat -> real, acc: Spawn) returns (r: Outcome<Spawn>)
    requires UnitOracle(draws)
    ensures r == CliqueSpawn(V, c, i, max, oper, draws, acc)
  {
    var all := StateList(V, c);
    var states := all;
    if max > 0 && |states| > max {
      states := Shuffled(states, DrawsFor(draws, i, |states|));
      states := states[..max];
    }
    assert states == Sampled(all, max, DrawsFor(draws, i, |all|));
    var nos := oper(states);
    if nos.NotArray? {
      return Threw(TypeError("Operator didn't return an array."));
    }
    r := OpsTurn(c, nos.ops, acc);
  }

  /** `c.parent.map(s => s.state)`. */
  method StateList(V: Arena, c: nat) returns (states: seq<int>)
    ensures states == CliqueStates(V, c)
  {
    states := [];
    if c in V {
      var ps := V[c].parents;
      for k := 0 to |ps|
        invariant states == CliqueStates(V, c)[..k]
      {
        states := states + [StateValue(V, ps[k])];
      }
    }
  }

  /** `nos.forEach(o => ...)`. */
  method OpsTurn(c: nat, os: seq<OpReply>, acc0: Spawn) returns (r: Outcome<Spawn>)
    ensures r == OpsSpawn(c, os, acc0)
  {
    var acc := acc0;
    for j := 0 to |os|
      invariant OpsSpawn(c, os[..j], acc0) == Done(acc)
    {
      assert os[..j + 1][..j] == os[..j];
      var o := os[j];
      if o.NotList? {
        OpsSpawnStops(c, os, acc0, j + 1);
        return Threw(TypeError("One of the new operations was not an array."));
      }
      if o.states == [] {
        OpsSpawnStops(c, os, acc0, j + 1);
        return Threw(TypeError("One of the new operations had no states."));
      }
      var k := |acc.ops|;
      var sts := acc.sts;
      for t := 0 to |o.states|
        invariant sts == acc.sts + Tagged(o.states, k)[..t]
      {
        sts := sts + [NewState(o.states[t], k)];
      }
      assert Tagged(o.states, k)[..|o.states|] == Tagged(o.states, k);
      acc := Spawn(acc.ops + [[c]], sts);
    }
    assert os[..|os|] == os;
    r := Done(acc);
  }

  /** Entries after a bad one are not looked at. */
  lemma {:induction false} OpsSpawnStops(c: nat, os: seq<OpReply>, acc: Spawn, m: nat)
    requires m <= |os| && OpsSpawn(c, os[..m], acc).Threw?
    ensures OpsSpawn(c, os, acc) == OpsSpawn(c, os[..m], acc)
    decreases |os|
  {
    if m < |os| {
      assert os[..|os| - 1][..m] == os[..m];
      OpsSpawnStops(c, os[..|os| - 1], acc, m);
    } else {
      assert os[..m] == os;
    }
  }

  /** `model.shuffle(states)` on a copy. */
  method Shuffled(a: seq<int>, r: seq<real>) returns (b: seq<int>)
    requires |a| <= |r| && UnitDraws(r)
    ensures b == ShuffleFrom(a, r, |a| - 1) && |b| == |a|
  {
    ShufflePermutes(a, r, |a| - 1);
    b := a;
    var i := |a| - 1;
    while i > 0
      invariant |b| == |a| && i < |a| && ShuffleFrom(b, r, i) == ShuffleFrom(a, r, |a| - 1)
    {
      var j := Pick(r[i], i);
      b := Swap(b, i, j);
      i := i - 1;
    }
  }

  /** The shape of a finished phase: every operation has one parent, a
      clique of `Lc`; every state belongs to an operation, in the order of
      the operations; and every operation has at least one state. */
  ghost predicate SpawnShape(sp: Spawn, Lc: seq<nat>) {
    (forall k :: 0 <= k < |sp.ops| ==> |sp.ops[k]| == 1 && sp.ops[k][0] in Lc) &&
    (forall t :: 0 <= t < |sp.sts| ==> sp.sts[t].op < |sp.ops|) &&
    (forall t, u :: 0 <= t < u < |sp.sts| ==> sp.sts[t].op <= sp.sts[u].op) &&
    (forall k :: 0 <= k < |sp.ops| ==> k in OpsWithStates(sp.sts))
  }

  /** The operations that have a state. */
  ghost function OpsWithStates(sts: seq<NewState>): set<nat> {
    set t | 0 <= t < |sts| :: sts[t].op
  }

  lemma OpSpawnShape(c: nat, o: OpReply, acc: Spawn, Lc: seq<nat>)
    requires SpawnShape(acc, Lc) && c in Lc
    ensures OpSpawn(c, o, acc).Done? ==> SpawnShape(OpSpawn(c, o, acc).value, Lc)
  {
    if OpSpawn(c, o, acc).Done? {
      var sp := OpSpawn(c, o, acc).value;
      var k := |acc.ops|;
      var n := |acc.sts|;
      OpsWithStatesAppend(acc.sts, Tagged(o.states, k));
      assert o.states[0] == o.states[0];
      assert Tagged(o.states, k)[0].op == k;
      assert OpsWithStates(Tagged(o.states, k)) == {k};
    }
  }

  lemma OpsWithStatesAppend(a: seq<NewState>, b: seq<NewState>)
    ensures OpsWithStates(a + b) == OpsWithStates(a) + OpsWithStates(b)
  {
    forall x | x in OpsWithStates(a + b) ensures x in OpsWithStates(a) + OpsWithStates(b) {
      var t :| 0 <= t < |a + b| && (a + b)[t].op == x;
      if t < |a| {
        assert a[t].op == x;
      } else {
        assert b[t - |a|].op == x;
      }
    }
    forall x | x in OpsWithStates(a) + OpsWithStates(b) ensures x in OpsWithStates(a + b) {
      if x in OpsWithStates(a) {
        var t :| 0 <= t < |a| && a[t].op == x;
        assert (a + b)[t].op == x;
      } else {
        var t :| 0 <= t < |b| && b[t].op == x;
        assert (a + b)[|a| + t].op == x;
      }
    }
  }

  lemma {:induction false} OpsSpawnShape(c: nat, os: seq<OpReply>, acc: Spawn, Lc: seq<nat>)
    requires SpawnShape(acc, Lc) && c in Lc
    ensures OpsSpawn(c, os, acc).Done? ==> SpawnShape(OpsSpawn(c, os, acc).value, Lc)
    decreases |os|
  {
    if os != [] {
      OpsSpawnShape(c, os[..|os| - 1], acc, Lc);
      if OpsSpawn(c, os[..|os| - 1], acc).Done? {
        OpSpawnShape(c, os[|os| - 1], OpsSpawn(c, os[..|os| - 1], acc).value, Lc);
      }
    }
  }

  /** A phase that finishes has the shape `findCliques` expects. */
  lemma {:induction false} SpawnedShape(V: Arena, Lc: seq<nat>, max: nat, oper: seq<int> -> OperReply,
                                        draws: nat -> nat -> real, n: nat)
    requires UnitOracle(draws) && n <= |Lc|
    ensures Spawned(V, Lc, max, oper, draws, n).Done? ==> SpawnShape(Spawned(V, Lc, max, oper, draws, n).value, Lc)
  {
    if n > 0 {
      SpawnedShape(V, Lc, max, oper, draws, n - 1);
      var pre := Spawned(V, Lc, max, oper, draws, n - 1);
      if pre.Done? {
        var states := CliqueStates(V, Lc[n - 1]);
        var reply := oper(Sampled(states, max, DrawsFor(draws, n - 1, |states|)));
        if reply.Ops? {
          OpsSpawnShape(Lc[n - 1], reply.ops, pre.value, Lc);
        }
      }
    }
  }
}
