/** The loops of the first half of `next`, each proved to compute the
    function that describes it. */
module TrigraphSpawnLoops {
  import opened SeqUtil
  import opened EngineOper
  import opened EngineSetup
  import opened TrigraphGraph
  import opened TrigraphSpawn
  import opened TrigraphGrowth

  /** The loop that makes the states of operation `o`. */
  method GrowStates(sp: Sprout, o: nat, xs: seq<int>) returns (r: Sprout)
    requires o in sp.V && o <= sp.id && IdsBelow(sp)
    ensures r == AddStates(sp, o, xs)
  {
    r := sp;
    var j := 0;
    assert r == AddStates(sp, o, xs[..0]) by {
      assert sp.V + NewStates(o, sp.id + 1, []) == sp.V;
      assert sp.V[o].(children := sp.V[o].children + []) == sp.V[o];
    }
    while j < |xs|
      invariant 0 <= j <= |xs| && r == AddStates(sp, o, xs[..j])
    {
      AddStatesSnoc(sp, o, xs[..j], xs[j]);
      assert xs[..j] + [xs[j]] == xs[..j + 1];
      r := AddState(r, o, xs[j]);
      j := j + 1;
    }
    assert xs[..|xs|] == xs;
  }

  /** The first step of `next`. */
  method SpawnFirst(V: Vertices, id0: nat, init: InitReply) returns (run: Run)
    requires IdsBelow(Sprout(V, [], [], id0))
    ensures run == FirstStep(V, id0, init)
  {
    var sp := Root(Sprout(V, [], [], id0));
    match init
    case InitNotArray =>
      run := Run(sp, Some(TypeError("INITIAL STATE was not an array.")));
    case InitStates(xs) =>
      if xs == [] {
        run := Run(sp, Some(TypeError("INITIAL STATE was empty.")));
      } else {
        var r := GrowStates(sp, sp.id, xs);
        run := Run(r, None);
      }
  }

  /** The loop over the reply of `oper` for clique `c`. */
  method SpawnOpsLoop(sp: Sprout, c: nat, nos: seq<OpReply>) returns (run: Run)
    requires IdsBelow(sp)
    ensures run == SpawnOps(sp, c, nos) && IdsBelow(run.sp)
  {
    run := Run(sp, None);
    var j := 0;
    while j < |nos|
      invariant 0 <= j <= |nos| && run == SpawnOps(sp, c, nos[..j]) && run.err.None? && IdsBelow(run.sp)
    {
      assert nos[..j + 1][..j] == nos[..j];
      match nos[j] {
        case NotList =>
          run := Run(run.sp, Some(TypeError("OPERATOR: One of the operations was not an array.")));
          OpsStopped(sp, c, nos, j + 1);
          return;
        case States(xs) =>
          if xs == [] {
            run := Run(run.sp, Some(TypeError("OPERATOR: One of the operations was empty.")));
            OpsStopped(sp, c, nos, j + 1);
            return;
          }
          var sp' := AddOp(run.sp, c);
          var r := GrowStates(sp', sp'.id, xs);
          run := Run(r, None);
      }
      assert run == SpawnOps(sp, c, nos[..j + 1]);
      j := j + 1;
    }
    assert nos[..|nos|] == nos;
  }

  /** The loop over the cliques of the current level. */
  method SpawnCliques(sp: Sprout, C: seq<nat>, oper: seq<int> -> OperReply) returns (run: Run)
    requires IdsBelow(sp)
    ensures run == OperatorPhase(sp, C, oper)
  {
    run := Run(sp, None);
    var i := 0;
    while i < |C|
      invariant 0 <= i <= |C| && run == OperatorPhase(sp, C[..i], oper) && run.err.None? && IdsBelow(run.sp)
    {
      assert C[..i + 1][..i] == C[..i];
      var reply := oper(CliqueValues(run.sp.V, C[i]));
      match reply {
        case NotArray =>
          run := Run(run.sp, Some(TypeError("OPERATOR: The output was not an array.")));
        case Ops(nos) =>
          run := SpawnOpsLoop(run.sp, C[i], nos);
      }
      assert run == OperatorPhase(sp, C[..i + 1], oper);
      if run.err.Some? {
        PhaseStopped(sp, C, oper, i + 1);
        return;
      }
      i := i + 1;
    }
    assert C[..|C|] == C;
  }
}
