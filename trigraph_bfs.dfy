/** The `bfs` generator of `modules/Trigraph.mjs`, run to its end. */
module TrigraphBfs {
  import opened SeqUtil
  import opened TrigraphGraph
  import opened TrigraphRings

  /** `l` for the generation `s`: the loop over its members. */
  method ListLinks(g: Vertices, s: seq<nat>, reverse: bool) returns (l: seq<nat>)
    ensures l == Listed(g, s, reverse)
  {
    l := [];
    var j := 0;
    while j < |s|
      invariant 0 <= j <= |s| && l == Listed(g, s[..j], reverse)
    {
      assert s[..j + 1][..j] == s[..j];
      l := l + Links(g, s[j], reverse);
      j := j + 1;
    }
    assert s[..|s|] == s;
  }

  /** One round of the generator: list what the generation links to, yield
      the generation unless it is still skipped, and move on to the next. */
  method Round(g: Vertices, ghost R: set<nat>, reverse: bool, ghost W: set<nat>, ghost skip0: nat, ghost k: nat,
               u: seq<nat>, s: seq<nat>, skip: nat, gens: seq<seq<nat>>)
    returns (ghost k': nat, u': seq<nat>, s': seq<nat>, skip': nat, gens': seq<seq<nat>>)
    requires Searching(g, R, reverse, W, skip0, k, u, s, skip, gens) && s != []
    ensures k' == k + 1 && Searching(g, R, reverse, W, skip0, k', u', s', skip', gens')
    ensures |W - Elems(u')| < |W - Elems(u)|
  {
    var l := ListLinks(g, s, reverse);
    k' := k + 1;
    if skip > 0 {
      SearchSkip(g, R, reverse, W, skip0, k, k', u, s, skip, gens);
      skip', gens' := skip - 1, gens;
    } else {
      SearchYield(g, R, reverse, W, skip0, k, k', u, s, skip, gens);
      skip', gens' := 0, gens + [s];
    }
    u' := Dedup(u + s);
    s' := Without(Dedup(l), u');
  }

  /** The generator's loop, run until the generation to yield is empty. */
  method Search(g: Vertices, vs: seq<nat>, reverse: bool, skip0: nat)
    returns (ghost k: nat, u: seq<nat>, s: seq<nat>, skip: nat, gens: seq<seq<nat>>)
    ensures Searching(g, Elems(vs), reverse, Elems(vs) + Linked(g), skip0, k, u, s, skip, gens) && s == []
  {
    ghost var R, W := Elems(vs), Elems(vs) + Linked(g);
    u, s, skip, gens, k := [], vs, skip0, [], 0;
    SearchStart(g, vs, reverse, skip0);
    while s != []
      invariant Searching(g, R, reverse, W, skip0, k, u, s, skip, gens)
      decreases |W - Elems(u)|
    {
      k, u, s, skip, gens := Round(g, R, reverse, W, skip0, k, u, s, skip, gens);
    }
  }

  /** `bfs(vs, reverse, skip)` run to its end without a filter from the
      caller: the generations from number `skip` on, as long as they are
      not empty. Each is yielded without duplicates (the roots as given),
      and no vertex is yielded twice. */
  method Bfs(g: Vertices, vs: seq<nat>, reverse: bool, skip0: nat) returns (gens: seq<seq<nat>>)
    ensures Generations(g, Elems(vs), reverse, skip0, gens)
    ensures Exhausted(g, Elems(vs), reverse, skip0 + |gens|)
    ensures forall i, j :: 0 <= i < j < |gens| ==> Elems(gens[i]) !! Elems(gens[j])
  {
    ghost var k;
    var u, s, skip;
    k, u, s, skip, gens := Search(g, vs, reverse, skip0);
    SearchDone(g, Elems(vs), reverse, Elems(vs) + Linked(g), skip0, k, u, s, skip, gens);
  }
}
