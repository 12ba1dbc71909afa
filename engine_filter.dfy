/** The clique cap of `filter(d)` (option `maxcliquesperloc`), shared by both
    engines: every location with more than `N` cliques keeps the `N` with
    the most states, and `Lc` becomes the kept cliques, location after
    location. The cap rewrites the locations' parent lists in `V`. */
module EngineFilter {
  import opened SeqUtil
  import opened EngineCore

  /** `c.parent.length`: the number of states of clique `c` (none for an id
      that names no vertex). */
  function Arity(V: Arena, c: nat): nat {
    if c in V then |V[c].parents| else 0
  }

  /** The comparator `(a, b) => b.parent.length - a.parent.length` as a sort
      key, largest first. */
  function ArityKey(V: Arena): nat -> int {
    (c: nat) => Arity(V, c) as int
  }

  /** `if (ps.length > N) { ps.sort(...); ps.length = N }`. */
  function Capped(V: Arena, ps: seq<nat>, N: nat): seq<nat> {
    if |ps| > N then SortDesc(ps, ArityKey(V))[..N] else ps
  }

  /** The cap keeps `N` of the cliques (all of them when there are no more
      than `N`), keeps only cliques of the list, each no more often than
      there, and every kept clique has at least as many states as every
      dropped one; among cliques with the same number of states, the sort
      being stable, the kept ones are the first in the list. */
  lemma CappedKeepsLargest(V: Arena, ps: seq<nat>, N: nat)
    ensures |Capped(V, ps, N)| == if |ps| > N then N else |ps|
    ensures |ps| <= N ==> Capped(V, ps, N) == ps
    ensures multiset(Capped(V, ps, N)) <= multiset(ps)
    ensures forall x, y :: x in Capped(V, ps, N) && y in multiset(ps) - multiset(Capped(V, ps, N)) ==> Arity(V, x) >= Arity(V, y)
    ensures forall a :: KeyFilter(Capped(V, ps, N), ArityKey(V), a) <= KeyFilter(ps, ArityKey(V), a)
  {
    if |ps| > N {
      var s := SortDesc(ps, ArityKey(V));
      assert s == s[..N] + s[N..];
      assert multiset(s) == multiset(s[..N]) + multiset(s[N..]);
      SortedSplit(V, s, N);
      forall a ensures KeyFilter(s[..N], ArityKey(V), a) <= KeyFilter(ps, ArityKey(V), a) {
        KeyFilterPrefix(s, N, ArityKey(V), a);
        SortDescStable(ps, ArityKey(V), a);
      }
    }
  }

  /** In a list sorted by arity, every entry of the first `N` has at least
      the arity of every entry after them. */
  lemma SortedSplit(V: Arena, s: seq<nat>, N: nat)
    requires SortedDesc(s, ArityKey(V)) && N <= |s|
    ensures forall x, y :: x in s[..N] && y in multiset(s[N..]) ==> Arity(V, x) >= Arity(V, y)
  {
    forall x, y | x in s[..N] && y in multiset(s[N..]) ensures Arity(V, x) >= Arity(V, y) {
      var i :| 0 <= i < N && s[..N][i] == x;
      var j :| 0 <= j < |s| - N && s[N..][j] == y;
      assert ArityKey(V)(s[i]) >= ArityKey(V)(s[N + j]);
    }
  }

  /** The turn of the loop for location `l`: its parents capped, and the
      list that `Lc.push(...Ll[i].parent)` appends. */
  function CapAt(V: Arena, l: nat, N: nat): (Arena, seq<nat>) {
    if l in V then
      var kept := Capped(V, V[l].parents, N);
      (V[l := V[l].(parents := kept)], kept)
    else (V, [])
  }

  /** The loop over the locations `Ll`: the arena and `Lc` afterwards. */
  function CapTurns(V: Arena, Ll: seq<nat>, N: nat): (Arena, seq<nat>)
    decreases |Ll|
  {
    if Ll == [] then (V, [])
    else
      var pre := CapTurns(V, Ll[..|Ll| - 1], N);
      var turn := CapAt(pre.0, Ll[|Ll| - 1], N);
      (turn.0, pre.1 + turn.1)
  }

  /** The cap loop. After the turn for location `i` the progress report may
      find the job aborted (oracle `proceed(i)`), which ends the filter with
      the turns done so far. */
  method CapCliques(V0: Arena, Ll: seq<nat>, N: nat, proceed: nat -> bool) returns (V: Arena, Lc: seq<nat>, ok: bool)
    ensures ok ==> (V, Lc) == CapTurns(V0, Ll, N) && forall i :: 0 <= i < |Ll| ==> proceed(i)
    ensures !ok ==> exists k :: 0 <= k < |Ll| && !proceed(k) && (V, Lc) == CapTurns(V0, Ll[..k + 1], N)
  {
    V, Lc := V0, [];
    for i := 0 to |Ll|
      invariant V == CapTurns(V0, Ll[..i], N).0 && Lc == CapTurns(V0, Ll[..i], N).1
      invariant forall k :: 0 <= k < i ==> proceed(k)
    {
      assert Ll[..i + 1][..i] == Ll[..i];
      V, Lc := CapTurn(V, Lc, Ll[i], N);
      if !proceed(i) {
        return V, Lc, false;
      }
    }
    assert Ll[..|Ll|] == Ll;
    ok := true;
  }

  /** The body of the cap loop for location `l`. */
  method CapTurn(V0: Arena, Lc0: seq<nat>, l: nat, N: nat) returns (V: Arena, Lc: seq<nat>)
    ensures V == CapAt(V0, l, N).0 && Lc == Lc0 + CapAt(V0, l, N).1
  {
    V, Lc := V0, Lc0;
    if l in V {
      var ps := V[l].parents;
      if |ps| > N {
        ps := SortDesc(ps, ArityKey(V))[..N];
        V := V[l := V[l].(parents := ps)];
      } else {
        assert V[l := V[l].(parents := ps)] == V;
      }
      Lc := Lc + ps;
    }
  }

  /** One turn keeps the arena dense with parents below children, and only
      lists cliques below `id`. */
  lemma CapAtKeeps(V: Arena, l: nat, N: nat, id: nat)
    requires Dense(V, id) && Below(V)
    ensures Dense(CapAt(V, l, N).0, id) && Below(CapAt(V, l, N).0)
    ensures forall x :: x in CapAt(V, l, N).1 ==> x < id
  {
    if l in V {
      var ps := V[l].parents;
      CappedKeepsLargest(V, ps, N);
      var kept := Capped(V, ps, N);
      forall x | x in kept ensures x in ps && x < l {
        assert x in multiset(kept);
      }
      var W := CapAt(V, l, N).0;
      forall i, k | i in W && 0 <= k < |W[i].parents| ensures W[i].parents[k] < i {
        if i == l {
          assert W[i].parents[k] in kept;
        }
      }
    }
  }

  /** The whole cap loop, or any prefix of it, keeps the arena dense with
      parents below children, and `Lc` only lists cliques below `id`. */
  lemma {:induction false} CapTurnsKeep(V: Arena, Ll: seq<nat>, N: nat, id: nat)
    requires Dense(V, id) && Below(V)
    ensures Dense(CapTurns(V, Ll, N).0, id) && Below(CapTurns(V, Ll, N).0)
    ensures forall x :: x in CapTurns(V, Ll, N).1 ==> x < id
    decreases |Ll|
  {
    if Ll != [] {
      var pre := CapTurns(V, Ll[..|Ll| - 1], N);
      CapTurnsKeep(V, Ll[..|Ll| - 1], N, id);
      CapAtKeeps(pre.0, Ll[|Ll| - 1], N, id);
    }
  }

  /** The kept list of each location when the cap reads the arena `V`. */
  function KeptLists(V: Arena, Ll: seq<nat>, N: nat): (r: seq<seq<nat>>)
    ensures |r| == |Ll|
  {
    seq(|Ll|, i requires 0 <= i < |Ll| => if Ll[i] in V then Capped(V, V[Ll[i]].parents, N) else [])
  }

  /** What the engines' arenas give the cap: distinct locations, and no
      location among a location's parents. */
  ghost predicate Separate(V: Arena, Ll: seq<nat>) {
    NoDup(Ll) && forall i, c :: 0 <= i < |Ll| && Ll[i] in V && c in V[Ll[i]].parents ==> c !in Ll
  }

  /** `W` is `V` with the locations `Ll` capped and nothing else changed. */
  ghost predicate CapsDone(W: Arena, V: Arena, Ll: seq<nat>, N: nat) {
    W.Keys == V.Keys &&
    (forall x :: x in V && x !in Ll ==> W[x] == V[x]) &&
    (forall i :: 0 <= i < |Ll| && Ll[i] in V ==> W[Ll[i]] == V[Ll[i]].(parents := Capped(V, V[Ll[i]].parents, N)))
  }

  /** On separate locations the turns do not see each other: every location
      ends with its own capped list, every other vertex is untouched, and
      `Lc` is the kept lists one after another. */
  lemma {:induction false} CapTurnsSeparate(V: Arena, Ll: seq<nat>, N: nat)
    requires Separate(V, Ll)
    ensures CapsDone(CapTurns(V, Ll, N).0, V, Ll, N)
    ensures CapTurns(V, Ll, N).1 == Concat(KeptLists(V, Ll, N))
    decreases |Ll|
  {
    if Ll != [] {
      var n := |Ll|;
      var pre := Ll[..n - 1];
      SeparatePrefix(V, Ll);
      CapTurnsSeparate(V, pre, N);
      CapAtStep(V, CapTurns(V, pre, N).0, Ll, N);
      assert KeptLists(V, Ll, N)[..n - 1] == KeptLists(V, pre, N);
    }
  }

  lemma SeparatePrefix(V: Arena, Ll: seq<nat>)
    requires Separate(V, Ll) && Ll != []
    ensures Separate(V, Ll[..|Ll| - 1])
  {
    var pre := Ll[..|Ll| - 1];
    assert forall x :: x in pre ==> x in Ll;
    forall i, c | 0 <= i < |pre| && pre[i] in V && c in V[pre[i]].parents ensures c !in pre {
      assert pre[i] == Ll[i];
    }
  }

  /** The last entry of a list without duplicates is not among the others. */
  lemma NoDupLast(s: seq<nat>)
    requires NoDup(s) && s != []
    ensures s[|s| - 1] !in s[..|s| - 1]
  {
    var p := s[..|s| - 1];
    forall j | 0 <= j < |p| ensures p[j] != s[|s| - 1] {
      assert p[j] == s[j];
    }
  }

  /** Capping reads the arena only through the arities of the listed
      cliques. */
  lemma CappedAgree(V: Arena, W: Arena, ps: seq<nat>, N: nat)
    requires forall c :: c in ps ==> Arity(W, c) == Arity(V, c)
    ensures Capped(W, ps, N) == Capped(V, ps, N)
  {
    SortDescAgree(ps, ArityKey(W), ArityKey(V));
  }

  /** The turn for the last location, after the others are capped. */
  lemma CapAtStep(V: Arena, W: Arena, Ll: seq<nat>, N: nat)
    requires Separate(V, Ll) && Ll != []
    requires CapsDone(W, V, Ll[..|Ll| - 1], N)
    ensures CapsDone(CapAt(W, Ll[|Ll| - 1], N).0, V, Ll, N)
    ensures CapAt(W, Ll[|Ll| - 1], N).1 == KeptLists(V, Ll, N)[|Ll| - 1]
  {
    var n := |Ll|;
    var pre := Ll[..n - 1];
    var l := Ll[n - 1];
    CapAtSees(V, W, Ll, N);
    var W2 := CapAt(W, l, N).0;
    forall i | 0 <= i < n && Ll[i] in V
      ensures W2[Ll[i]] == V[Ll[i]].(parents := Capped(V, V[Ll[i]].parents, N))
    {
      if i < n - 1 {
        assert Ll[i] == pre[i] && Ll[i] != l;
      }
    }
    forall x | x in V && x !in Ll ensures W2[x] == V[x] {
      assert x !in pre;
    }
  }

  /** The last location is not capped yet, and its cliques have the same
      arities as in `V`. */
  lemma CapAtSees(V: Arena, W: Arena, Ll: seq<nat>, N: nat)
    requires Separate(V, Ll) && Ll != []
    requires CapsDone(W, V, Ll[..|Ll| - 1], N)
    ensures Ll[|Ll| - 1] !in Ll[..|Ll| - 1]
    ensures Ll[|Ll| - 1] in V ==>
      W[Ll[|Ll| - 1]] == V[Ll[|Ll| - 1]] && Capped(W, V[Ll[|Ll| - 1]].parents, N) == Capped(V, V[Ll[|Ll| - 1]].parents, N)
  {
    var pre := Ll[..|Ll| - 1];
    var l := Ll[|Ll| - 1];
    NoDupLast(Ll);
    if l in V {
      var ps := V[l].parents;
      forall c | c in ps ensures Arity(W, c) == Arity(V, c) {
        assert c !in Ll;
        assert c !in pre;
      }
      CappedAgree(V, W, ps, N);
    }
  }
}
