/** The grouping of new states at the start of each round of the location
    loop in `next` of `modules/Trigraph.mjs`: the last pending state is
    popped, then the pending list is walked from its end to its start and
    every state equivalent to the popped one (by the user's `eqf` on the
    two values) is moved into the group. */
module TrigraphGroup {
  import opened SeqUtil
  import opened TrigraphGraph
  import opened TrigraphSpawn

  /** The members of `Q` equivalent to a state with value `a`, in the order
      a walk from the end of `Q` meets them. */
  function Taken(V: Vertices, eq: (int, int) -> bool, a: int, Q: seq<nat>): seq<nat>
    decreases |Q|
  {
    if Q == [] then []
    else Taken(V, eq, a, Q[1..]) + (if eq(a, Value(V, Q[0])) then [Q[0]] else [])
  }

  /** The members of `Q` not equivalent to a state with value `a`, in their
      order. */
  function Left(V: Vertices, eq: (int, int) -> bool, a: int, Q: seq<nat>): seq<nat>
    decreases |Q|
  {
    if Q == [] then []
    else (if eq(a, Value(V, Q[0])) then [] else [Q[0]]) + Left(V, eq, a, Q[1..])
  }

  /** The two halves split `Q`: together they hold every member of `Q`
      exactly as often as `Q` does. */
  lemma TakenLeft(V: Vertices, eq: (int, int) -> bool, a: int, Q: seq<nat>)
    ensures multiset(Taken(V, eq, a, Q)) + multiset(Left(V, eq, a, Q)) == multiset(Q)
    ensures forall x :: x in Taken(V, eq, a, Q) ==> eq(a, Value(V, x))
    ensures forall x :: x in Left(V, eq, a, Q) ==> !eq(a, Value(V, x))
  {
    TakenLeftCount(V, eq, a, Q);
    TakenLeftSides(V, eq, a, Q);
  }

  lemma {:induction false} TakenLeftCount(V: Vertices, eq: (int, int) -> bool, a: int, Q: seq<nat>)
    ensures multiset(Taken(V, eq, a, Q)) + multiset(Left(V, eq, a, Q)) == multiset(Q)
    decreases |Q|
  {
    if Q != [] {
      TakenLeftCount(V, eq, a, Q[1..]);
      assert Q == [Q[0]] + Q[1..];
    }
  }

  lemma {:induction false} TakenLeftSides(V: Vertices, eq: (int, int) -> bool, a: int, Q: seq<nat>)
    ensures forall x :: x in Taken(V, eq, a, Q) ==> eq(a, Value(V, x))
    ensures forall x :: x in Left(V, eq, a, Q) ==> !eq(a, Value(V, x))
    decreases |Q|
  {
    if Q != [] {
      TakenLeftSides(V, eq, a, Q[1..]);
    }
  }

  /** The group of the last pending state and the states still pending
      after it is formed. */
  function Grouped(V: Vertices, eq: (int, int) -> bool, P: seq<nat>): (r: (seq<nat>, seq<nat>))
    requires P != []
  {
    var s, Q := P[|P| - 1], P[..|P| - 1];
    ([s] + Taken(V, eq, Value(V, s), Q), Left(V, eq, Value(V, s), Q))
  }

  /** Every pending state ends up either in the group or still pending, once
      and only once, and the group starts with the popped state. */
  lemma GroupedSplits(V: Vertices, eq: (int, int) -> bool, P: seq<nat>)
    requires P != []
    ensures var (G, rest) := Grouped(V, eq, P);
      multiset(G) + multiset(rest) == multiset(P) && G != [] && G[0] == P[|P| - 1] && |rest| < |P|
  {
    var s, Q := P[|P| - 1], P[..|P| - 1];
    var a := Value(V, s);
    var T, Lf := Taken(V, eq, a, Q), Left(V, eq, a, Q);
    TakenLeft(V, eq, a, Q);
    assert P == Q + [s];
    assert multiset(P) == multiset(Q) + multiset{s};
    assert multiset([s] + T) == multiset{s} + multiset(T);
    assert |multiset(Lf)| <= |multiset(Q)|;
  }

  /** Every member of the group is equivalent to the popped state, and no
      state left pending is. */
  lemma GroupedEquivalent(V: Vertices, eq: (int, int) -> bool, P: seq<nat>)
    requires P != []
    ensures var (G, rest) := Grouped(V, eq, P);
      G != [] && (forall x :: x in G[1..] ==> eq(Value(V, G[0]), Value(V, x))) &&
      (forall x :: x in rest ==> !eq(Value(V, G[0]), Value(V, x)))
  {
    var s, Q := P[|P| - 1], P[..|P| - 1];
    TakenLeft(V, eq, Value(V, s), Q);
    assert ([s] + Taken(V, eq, Value(V, s), Q))[1..] == Taken(V, eq, Value(V, s), Q);
  }

  /** `S.pop()` and the backwards loop with its `splice`. */
  method Group(V: Vertices, eq: (int, int) -> bool, P: seq<nat>) returns (G: seq<nat>, rest: seq<nat>)
    requires P != []
    ensures (G, rest) == Grouped(V, eq, P)
  {
    var s := P[|P| - 1];
    var Q := P[..|P| - 1];
    var a := Value(V, s);
    G := [s];
    rest := Q;
    var i := |Q|;
    while i > 0
      invariant 0 <= i <= |Q|
      invariant G == [s] + Taken(V, eq, a, Q[i..])
      invariant rest == Q[..i] + Left(V, eq, a, Q[i..])
    {
      i := i - 1;
      var x := Q[i];
      ghost var L1 := Left(V, eq, a, Q[i + 1..]);
      assert Q[i..][1..] == Q[i + 1..] && Q[i..][0] == x;
      assert Left(V, eq, a, Q[i..]) == (if eq(a, Value(V, x)) then [] else [x]) + L1;
      assert Q[..i + 1] == Q[..i] + [x];
      assert rest == Q[..i] + ([x] + L1);
      if eq(a, Value(V, x)) {
        G := G + [x];
        rest := rest[..i] + rest[i + 1..];
        assert rest == Q[..i] + L1;
      }
    }
    assert Q[0..] == Q && Q[..0] == [];
    assert G == [s] + Taken(V, eq, a, Q);
    assert rest == Left(V, eq, a, Q);
  }
}
