/** The first half of `next` in `modules/Trigraph.mjs`: the vertices it
    creates before the states are grouped. On the first step a root
    operation and the initial states; on every later step, for each clique
    of the current level, the operations `oper` returns for the clique's
    states, each with its states. Every new vertex takes the next id
    (`++this.id`), so operations and their states interleave.

    The vertices sit in one map with the stored ones; a new vertex carries
    level 0 until `next` stamps its layer. A new operation is pushed onto
    its clique's children and a new state onto its operation's children as
    soon as it is made, so an exception part-way leaves those pushes and the
    id counter advanced. */
module TrigraphSpawn {
  import opened SeqUtil
  import opened EngineOper
  import opened EngineSetup
  import opened TrigraphGraph

  /** The user functions `next` calls: `initf`, `operf`, `eqf` and `coordf`
      (with the `'' +` string conversion of its value folded in). */
  datatype Params = Params(init: InitReply, oper: seq<int> -> OperReply, eq: (int, int) -> bool, coord: int -> string)

  /** The vertices, the ids of the new operations (`N[0]`) and states
      (`N[1]`), and the id counter. */
  datatype Sprout = Sprout(V: Vertices, ops: seq<nat>, sts: seq<nat>, id: nat)

  /** Where the phase stopped: its state, and the exception if it threw. */
  datatype Run = Run(sp: Sprout, err: Option<Error>)

  /** Every vertex id is at most the id counter. */
  ghost predicate IdsBelow(sp: Sprout) {
    forall i :: i in sp.V ==> i <= sp.id
  }

  /** `s.state` of a state vertex; any other id reads as 0. */
  function Value(V: Vertices, x: nat): int {
    if x in V && V[x].kind.State? then V[x].kind.value else 0
  }

  /** `c.parent.map(p => p.state)`. */
  function CliqueValues(V: Vertices, c: nat): (r: seq<int>)
    ensures c in V ==> |r| == |V[c].parents| && forall k :: 0 <= k < |r| ==> r[k] == Value(V, V[c].parents[k])
  {
    if c in V then seq(|V[c].parents|, k requires 0 <= k < |V[c].parents| => Value(V, V[c].parents[k])) else []
  }

  /** The first operation: the next id, no parents. */
  function Root(sp: Sprout): Sprout {
    var o := sp.id + 1;
    sp.(V := sp.V[o := Vertex(0, [], [], Operation)], ops := sp.ops + [o], id := o)
  }

  /** A new operation under clique `c`, pushed onto the clique's children. */
  function AddOp(sp: Sprout, c: nat): Sprout {
    var o := sp.id + 1;
    var V := if c in sp.V then sp.V[c := sp.V[c].(children := sp.V[c].children + [o])] else sp.V;
    sp.(V := V[o := Vertex(0, [c], [], Operation)], ops := sp.ops + [o], id := o)
  }

  /** A new state with value `x` under operation `o`, pushed onto the
      operation's children. */
  function AddState(sp: Sprout, o: nat, x: int): Sprout {
    var u := sp.id + 1;
    var V := if o in sp.V then sp.V[o := sp.V[o].(children := sp.V[o].children + [u])] else sp.V;
    sp.(V := V[u := Vertex(0, [o], [], State(x, None))], sts := sp.sts + [u], id := u)
  }

  /** The ids `a`, `a + 1`, ..., `a + n - 1`. */
  function Ids(a: nat, n: nat): (r: seq<nat>)
    ensures |r| == n && forall k :: 0 <= k < n ==> r[k] == a + k
  {
    seq(n, k requires 0 <= k < n => a + k)
  }

  /** The states with values `xs` under operation `o`, from id `a` on. */
  function NewStates(o: nat, a: nat, xs: seq<int>): (m: Vertices)
    ensures forall i :: i in m <==> a <= i < a + |xs|
    decreases |xs|
  {
    if xs == [] then map[]
    else NewStates(o, a, xs[..|xs| - 1])[a + |xs| - 1 := Vertex(0, [o], [], State(xs[|xs| - 1], None))]
  }

  /** `xs.forEach(s => ...)`: one new state per value, in order; the states
      take the next ids and become the operation's children. */
  function AddStates(sp: Sprout, o: nat, xs: seq<int>): Sprout {
    var ids := Ids(sp.id + 1, |xs|);
    var V := if o in sp.V then sp.V[o := sp.V[o].(children := sp.V[o].children + ids)] else sp.V;
    sp.(V := V + NewStates(o, sp.id + 1, xs), sts := sp.sts + ids, id := sp.id + |xs|)
  }

  /** The first step: the root operation takes the next id before `init` is
      called; a falsy reply counts as an empty array. */
  function FirstStep(V: Vertices, id0: nat, init: InitReply): Run {
    var sp := Root(Sprout(V, [], [], id0));
    match init
    case InitNotArray => Run(sp, Some(TypeError("INITIAL STATE was not an array.")))
    case InitStates(xs) =>
      if xs == [] then Run(sp, Some(TypeError("INITIAL STATE was empty.")))
      else Run(AddStates(sp, sp.id, xs), None)
  }

  /** One entry of the reply of `oper` for clique `c`. */
  function SpawnOp(sp: Sprout, c: nat, r: OpReply): Run {
    match r
    case NotList => Run(sp, Some(TypeError("OPERATOR: One of the operations was not an array.")))
    case States(xs) =>
      if xs == [] then Run(sp, Some(TypeError("OPERATOR: One of the operations was empty.")))
      else var sp' := AddOp(sp, c); Run(AddStates(sp', sp'.id, xs), None)
  }

  /** `nos.forEach(o => ...)`, stopping at the first exception. */
  function SpawnOps(sp: Sprout, c: nat, nos: seq<OpReply>): Run
    decreases |nos|
  {
    if nos == [] then Run(sp, None)
    else
      var r := SpawnOps(sp, c, nos[..|nos| - 1]);
      if r.err.Some? then r else SpawnOp(r.sp, c, nos[|nos| - 1])
  }

  /** The operations for clique `c`; a falsy reply counts as an empty
      array. */
  function SpawnClique(sp: Sprout, c: nat, oper: seq<int> -> OperReply): Run {
    match oper(CliqueValues(sp.V, c))
    case NotArray => Run(sp, Some(TypeError("OPERATOR: The output was not an array.")))
    case Ops(nos) => SpawnOps(sp, c, nos)
  }

  /** `C.forEach(c => ...)`, stopping at the first exception. */
  function OperatorPhase(sp: Sprout, C: seq<nat>, oper: seq<int> -> OperReply): Run
    decreases |C|
  {
    if C == [] then Run(sp, None)
    else
      var r := OperatorPhase(sp, C[..|C| - 1], oper);
      if r.err.Some? then r else SpawnClique(r.sp, C[|C| - 1], oper)
  }
}
