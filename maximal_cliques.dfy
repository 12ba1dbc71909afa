/** Bron–Kerbosch with pivoting, written with an explicit stack of frames
    `[R, P, X]` exactly as every copy in the system writes it. The relation is
    given as neighbour lists; each copy builds those lists its own way and then
    runs this loop. */
module MaximalCliques {
  import opened SeqUtil
  import opened Factorials

  /** Neighbour lists, as the source keeps them in a (Weak)Map. */
  type Adjacency<T> = map<T, seq<T>>

  /** `N.get(x).includes(y)`. */
  predicate Adj<T>(N: Adjacency<T>, x: T, y: T) {
    x in N && y in N[x]
  }

  /** What the enumerator needs of its relation over the vertex set `U`: a
      neighbour list per vertex, symmetry and irreflexivity. */
  ghost predicate WellFormed<T>(U: set<T>, N: Adjacency<T>) {
    (forall x :: x in U ==> x in N) &&
    (forall x, y :: x in U && y in U && Adj(N, x, y) ==> Adj(N, y, x)) &&
    (forall x :: x in U ==> !Adj(N, x, x))
  }

  /** Pairwise adjacent. */
  ghost predicate IsClique<T>(N: Adjacency<T>, C: set<T>) {
    forall x, y :: x in C && y in C && x != y ==> Adj(N, x, y)
  }

  /** `w` is adjacent to every member of `C`. */
  ghost predicate AdjToAll<T>(N: Adjacency<T>, C: set<T>, w: T) {
    forall c :: c in C ==> Adj(N, w, c)
  }

  /** A clique of `U` that no further vertex of `U` extends. */
  ghost predicate IsMaximalClique<T>(U: set<T>, N: Adjacency<T>, C: set<T>) {
    C <= U && IsClique(N, C) && forall w :: w in U && w !in C ==> !AdjToAll(N, C, w)
  }

  /** One entry of the explicit stack: current clique, candidates, excluded. */
  datatype Frame<T> = Frame(R: seq<T>, P: seq<T>, X: seq<T>)

  /** The frame invariant: `R` is a clique, every candidate and every excluded
      vertex extends it, and every vertex that extends it is a candidate or
      excluded. */
  ghost predicate GoodFrame<T>(U: set<T>, N: Adjacency<T>, f: Frame<T>) {
    NoDup(f.R) && NoDup(f.P) &&
    Elems(f.R) <= U && Elems(f.P) <= U && Elems(f.X) <= U &&
    IsClique(N, Elems(f.R)) &&
    (forall p :: p in f.P ==> AdjToAll(N, Elems(f.R), p)) &&
    (forall x :: x in f.X ==> AdjToAll(N, Elems(f.R), x)) &&
    (forall w :: w in U && w !in f.R && AdjToAll(N, Elems(f.R), w) ==> w in f.P || w in f.X)
  }

  /** The cliques a frame is still responsible for: those between `R` and
      `R + P`. */
  ghost predicate Owns<T>(f: Frame<T>, C: set<T>) {
    Elems(f.R) <= C && C <= Elems(f.R) + Elems(f.P)
  }

  /** How many stack frames own `C`. */
  ghost function OwnCount<T>(stack: seq<Frame<T>>, C: set<T>): nat {
    if stack == [] then 0
    else OwnCount(stack[..|stack| - 1], C) + (if Owns(stack[|stack| - 1], C) then 1 else 0)
  }

  /** How many reported cliques have the members of `C`. */
  ghost function ReportCount<T>(r: seq<seq<T>>, C: set<T>): nat {
    if r == [] then 0
    else ReportCount(r[..|r| - 1], C) + (if Elems(r[|r| - 1]) == C then 1 else 0)
  }

  /** Termination measure: a frame with `n` candidates weighs (n+1)!, more
      than the at most `n` children it pushes, each with fewer candidates. */
  ghost function Weight<T>(stack: seq<Frame<T>>): nat {
    if stack == [] then 0
    else Weight(stack[..|stack| - 1]) + Fact(|stack[|stack| - 1].P| + 1)
  }

  /** Every frame on the stack satisfies the frame invariant. */
  ghost predicate AllGood<T>(U: set<T>, N: Adjacency<T>, stack: seq<Frame<T>>) {
    forall j :: 0 <= j < |stack| ==> GoodFrame(U, N, stack[j])
  }

  /** Everything reported so far is a maximal clique, listed without repetitions. */
  ghost predicate AllMaximal<T>(U: set<T>, N: Adjacency<T>, r: seq<seq<T>>) {
    forall k :: 0 <= k < |r| ==> NoDup(r[k]) && IsMaximalClique(U, N, Elems(r[k]))
  }

  /** The accounting invariant: each maximal clique is either reported once or
      owned by exactly one frame (the stack, or the frame being expanded when
      `active`), never both. */
  ghost predicate Accounted<T(!new)>(U: set<T>, N: Adjacency<T>, r: seq<seq<T>>, stack: seq<Frame<T>>,
                               cur: Frame<T>, active: bool) {
    forall C :: IsMaximalClique(U, N, C) ==>
      ReportCount(r, C) + OwnCount(stack, C) + (if active && Owns(cur, C) then 1 else 0) == 1
  }

  /** The explicit-stack Bron–Kerbosch loop. It reports every maximal clique
      of the relation exactly once, each as a list without repetitions, and
      an empty vertex list reports the empty clique once. */
  method BronKerbosch<T(!new)>(U: seq<T>, N: Adjacency<T>) returns (r: seq<seq<T>>)
    requires NoDup(U) && WellFormed(Elems(U), N)
    ensures forall k :: 0 <= k < |r| ==> NoDup(r[k]) && IsMaximalClique(Elems(U), N, Elems(r[k]))
    ensures forall C :: IsMaximalClique(Elems(U), N, C) ==> exists k :: 0 <= k < |r| && Elems(r[k]) == C
    ensures forall k, k' :: 0 <= k < k' < |r| ==> Elems(r[k]) != Elems(r[k'])
    ensures U == [] ==> r == [[]]
  {
    ghost var UU := Elems(U);
    r := [];
    var stack := [Frame([], U, [])];
    InitialFrame(U, N);
    while stack != []
      invariant AllGood(UU, N, stack) && AllMaximal(UU, N, r)
      invariant Accounted(UU, N, r, stack, Frame([], [], []), false)
      decreases Weight(stack)
    {
      var f := stack[|stack| - 1];
      ghost var r0, stack0 := r, stack;
      stack := stack[..|stack| - 1];
      ghost var S0 := stack;
      assert stack0 == S0 + [f];
      PopGood(UU, N, stack0);
      ghost var leaf := f.P == [] && f.X == [];
      if f.P == [] && f.X == [] {
        LeafIsMaximal(UU, N, r, f);
        r := r + [f.R];
      }
      PopCounts(UU, N, r0, r, S0, f, leaf);
      stack := Expand(UU, N, r, stack, f);
    }
    Conclude(UU, N, r);
    if U == [] {
      EmptyUniverse(N, r);
    }
  }

  /** The candidates the pivot does not cover: `P \ N(u)` with `u` the first
      of `P + X`. */
  ghost function PivotDiff<T>(N: Adjacency<T>, f: Frame<T>): seq<T> {
    if f.P + f.X == [] then []
    else if (f.P + f.X)[0] in N then Without(f.P, N[(f.P + f.X)[0]])
    else f.P
  }

  /** The part of the inner-loop invariant about the frame being expanded:
      after `i` children, the first `i` uncovered candidates have moved from
      `P` to `X`. */
  ghost predicate InnerShape<T>(U: set<T>, N: Adjacency<T>, f: Frame<T>, i: nat, P: seq<T>, X: seq<T>) {
    var pd0 := PivotDiff(N, f);
    WellFormed(U, N) && GoodFrame(U, N, f) &&
    i <= |pd0| && NoDup(pd0) && Elems(pd0) <= Elems(f.P) &&
    Elems(P) == Elems(f.P) - Elems(pd0[..i]) && |P| <= |f.P| &&
    GoodFrame(U, N, Frame(f.R, P, X)) &&
    (f.P == [] && f.X == [] ==> pd0 == [])
  }

  /** The invariant of the inner loop after `i` children of frame `f`. */
  ghost predicate InnerInv<T(!new)>(U: set<T>, N: Adjacency<T>, r: seq<seq<T>>, stack0: seq<Frame<T>>,
                                    f: Frame<T>, i: nat, P: seq<T>, X: seq<T>, stack: seq<Frame<T>>) {
    InnerShape(U, N, f, i, P, X) &&
    AllGood(U, N, stack) &&
    Accounted(U, N, r, stack, Frame(f.R, P, X), !(f.P == [] && f.X == [])) &&
    Weight(stack) <= Weight(stack0) + i * Fact(|f.P|)
  }

  /** The inner loop of one frame: push a child for every candidate that is
      not a neighbour of the pivot, moving it from the candidates to the
      excluded vertices after its child is pushed. */
  method Expand<T(!new)>(ghost U: set<T>, N: Adjacency<T>, ghost r: seq<seq<T>>,
                         stack0: seq<Frame<T>>, f: Frame<T>) returns (stack: seq<Frame<T>>)
    requires WellFormed(U, N) && GoodFrame(U, N, f) && AllGood(U, N, stack0)
    requires Accounted(U, N, r, stack0, f, !(f.P == [] && f.X == []))
    ensures AllGood(U, N, stack) && Accounted(U, N, r, stack, Frame([], [], []), false)
    ensures Weight(stack) < Weight(stack0 + [f])
  {
    stack := stack0;
    var R, P, X := f.R, f.P, f.X;
    InnerInit(U, N, r, stack0, f);
    var pdiffnu := if P + X == [] then [] else Without(P, N[(P + X)[0]]);
    ghost var pd0 := pdiffnu;
    assert pd0 == PivotDiff(N, f);
    ghost var i := 0;
    while pdiffnu != []
      invariant i <= |pd0| && pdiffnu == pd0[i..]
      invariant InnerInv(U, N, r, stack0, f, i, P, X, stack)
      decreases |pdiffnu|
    {
      var v := pdiffnu[0];
      InnerStep(U, N, r, stack0, f, i, P, X, stack);
      pdiffnu := pdiffnu[1..];
      stack := stack + [Frame(AddUnique(R, v), Keep(P, N[v]), Keep(X, N[v]))];
      P := RemoveFirst(P, v);
      X := AddUnique(X, v);
      i := i + 1;
    }
    InnerDone(U, N, r, stack0, f, i, P, X, stack);
  }

  lemma InnerInit<T(!new)>(U: set<T>, N: Adjacency<T>, r: seq<seq<T>>, stack0: seq<Frame<T>>, f: Frame<T>)
    requires WellFormed(U, N) && GoodFrame(U, N, f) && AllGood(U, N, stack0)
    requires Accounted(U, N, r, stack0, f, !(f.P == [] && f.X == []))
    ensures f.P + f.X != [] ==> (f.P + f.X)[0] in N
    ensures InnerInv(U, N, r, stack0, f, 0, f.P, f.X, stack0)
  {
    var pd0 := PivotDiff(N, f);
    assert f.P + f.X != [] ==> (f.P + f.X)[0] in U;
    assert pd0[..0] == [];
    assert f == Frame(f.R, f.P, f.X);
  }

  lemma InnerStep<T(!new)>(U: set<T>, N: Adjacency<T>, r: seq<seq<T>>, stack0: seq<Frame<T>>,
                           f: Frame<T>, i: nat, P: seq<T>, X: seq<T>, stack: seq<Frame<T>>)
    requires InnerInv(U, N, r, stack0, f, i, P, X, stack) && i < |PivotDiff(N, f)|
    ensures PivotDiff(N, f)[i] in P && PivotDiff(N, f)[i] in N
    ensures var v := PivotDiff(N, f)[i];
      InnerInv(U, N, r, stack0, f, i + 1, RemoveFirst(P, v), AddUnique(X, v),
               stack + [Frame(AddUnique(f.R, v), Keep(P, N[v]), Keep(X, N[v]))])
  {
    var pd0 := PivotDiff(N, f);
    var leaf := f.P == [] && f.X == [];
    var v := pd0[i];
    ShapeStep(U, N, f, i, P, X);
    ChildStep(U, N, r, stack, f.R, P, X, v, leaf);
    ChildWeight(U, N, stack, f.R, P, X, v, |f.P|);
    WeightStep(Weight(stack + [Frame(AddUnique(f.R, v), Keep(P, N[v]), Keep(X, N[v]))]),
               Weight(stack), Weight(stack0), i, Fact(|f.P|));
  }

  lemma ShapeStep<T>(U: set<T>, N: Adjacency<T>, f: Frame<T>, i: nat, P: seq<T>, X: seq<T>)
    requires InnerShape(U, N, f, i, P, X) && i < |PivotDiff(N, f)|
    ensures PivotDiff(N, f)[i] in P && PivotDiff(N, f)[i] in N
    ensures var v := PivotDiff(N, f)[i];
      InnerShape(U, N, f, i + 1, RemoveFirst(P, v), AddUnique(X, v))
  {
    var pd0 := PivotDiff(N, f);
    var v := pd0[i];
    assert v !in pd0[..i];
    assert pd0[..i + 1] == pd0[..i] + [v];
    RestIsGood(U, N, f.R, P, X, v);
  }

  lemma WeightStep(a: nat, b: nat, c: nat, i: nat, F: nat)
    requires a <= b + F && b <= c + i * F
    ensures a <= c + (i + 1) * F
  {
    assert (i + 1) * F == i * F + F;
  }

  lemma InnerDone<T(!new)>(U: set<T>, N: Adjacency<T>, r: seq<seq<T>>, stack0: seq<Frame<T>>,
                           f: Frame<T>, i: nat, P: seq<T>, X: seq<T>, stack: seq<Frame<T>>)
    requires InnerInv(U, N, r, stack0, f, i, P, X, stack) && i == |PivotDiff(N, f)|
    ensures AllGood(U, N, stack) && Accounted(U, N, r, stack, Frame([], [], []), false)
    ensures Weight(stack) < Weight(stack0 + [f])
  {
    var pd0 := PivotDiff(N, f);
    assert pd0[..i] == pd0;
    assert f.P + f.X != [] ==> (f.P + f.X)[0] in U;
    EndOfFrame(U, N, r, stack, f, f.R, P, X, pd0, f.P == [] && f.X == []);
    FrameWeight(stack0, f, i, Fact(|f.P|));
  }

  // ---- proof of the loop ----

  lemma InitialFrame<T(!new)>(U: seq<T>, N: Adjacency<T>)
    requires NoDup(U) && WellFormed(Elems(U), N)
    ensures AllGood(Elems(U), N, [Frame([], U, [])])
    ensures Accounted(Elems(U), N, [], [Frame([], U, [])], Frame([], [], []), false)
  {
    var f := Frame([], U, []);
    assert Elems(f.R) == {};
    assert GoodFrame(Elems(U), N, f);
    forall C | IsMaximalClique(Elems(U), N, C)
      ensures ReportCount([], C) + OwnCount([f], C) == 1
    {
      assert [f][..0] == [];
      assert Owns(f, C);
    }
  }

  lemma PopGood<T>(U: set<T>, N: Adjacency<T>, stack: seq<Frame<T>>)
    requires AllGood(U, N, stack) && stack != []
    ensures AllGood(U, N, stack[..|stack| - 1]) && GoodFrame(U, N, stack[|stack| - 1])
  {
  }

  lemma LeafIsMaximal<T>(U: set<T>, N: Adjacency<T>, r: seq<seq<T>>, f: Frame<T>)
    requires AllMaximal(U, N, r) && GoodFrame(U, N, f) && f.P == [] && f.X == []
    ensures AllMaximal(U, N, r + [f.R])
  {
    assert IsMaximalClique(U, N, Elems(f.R));
    forall k | 0 <= k < |r| + 1 ensures NoDup((r + [f.R])[k]) && IsMaximalClique(U, N, Elems((r + [f.R])[k])) {
      if k < |r| {
        assert (r + [f.R])[k] == r[k];
      }
    }
  }

  lemma PopCounts<T(!new)>(U: set<T>, N: Adjacency<T>, r0: seq<seq<T>>, r: seq<seq<T>>,
                     S0: seq<Frame<T>>, f: Frame<T>, leaf: bool)
    requires leaf == (f.P == [] && f.X == [])
    requires r == if leaf then r0 + [f.R] else r0
    requires Accounted(U, N, r0, S0 + [f], Frame([], [], []), false)
    ensures Accounted(U, N, r, S0, f, !leaf)
  {
    assert (S0 + [f])[..|S0|] == S0;
    if leaf {
      assert (r0 + [f.R])[..|r0|] == r0;
      forall C | IsMaximalClique(U, N, C)
        ensures ReportCount(r, C) + OwnCount(S0, C) == 1
      {
        assert Owns(f, C) <==> Elems(f.R) == C;
      }
    } else {
      forall C | IsMaximalClique(U, N, C)
        ensures ReportCount(r, C) + OwnCount(S0, C) + (if Owns(f, C) then 1 else 0) == 1
      {
        assert OwnCount(S0 + [f], C) == OwnCount(S0, C) + (if Owns(f, C) then 1 else 0);
      }
    }
  }

  /** A vertex adjacent to every member of a set is not itself a member. */
  lemma NotInOwnNeighbourhood<T>(U: set<T>, N: Adjacency<T>, R: set<T>, v: T)
    requires WellFormed(U, N) && v in U && AdjToAll(N, R, v)
    ensures v !in R
  {
    assert v in R ==> Adj(N, v, v);
  }

  /** Pushing a child for `v` splits what the current frame owns between the
      child (cliques with `v`) and the frame that remains (cliques without). */
  lemma SplitOwnership<T>(U: set<T>, N: Adjacency<T>, R: seq<T>, P: seq<T>, X: seq<T>, v: T, C: set<T>)
    requires WellFormed(U, N) && GoodFrame(U, N, Frame(R, P, X)) && v in P && v !in R
    requires IsClique(N, C)
    ensures Owns(Frame(R, P, X), C) <==>
      Owns(Frame(AddUnique(R, v), Keep(P, N[v]), Keep(X, N[v])), C) ||
      Owns(Frame(R, RemoveFirst(P, v), AddUnique(X, v)), C)
    ensures !(Owns(Frame(AddUnique(R, v), Keep(P, N[v]), Keep(X, N[v])), C) &&
              Owns(Frame(R, RemoveFirst(P, v), AddUnique(X, v)), C))
  {
    var child := Frame(AddUnique(R, v), Keep(P, N[v]), Keep(X, N[v]));
    var rest := Frame(R, RemoveFirst(P, v), AddUnique(X, v));
    assert Elems(child.R) == Elems(R) + {v};
    if Owns(Frame(R, P, X), C) {
      if v in C {
        forall c | c in C ensures c in Elems(child.R) + Elems(child.P) {
          if c !in Elems(R) && c != v {
            assert c in P && Adj(N, v, c);
          }
        }
      } else {
        forall c | c in C ensures c in Elems(rest.R) + Elems(rest.P) {
          if c !in Elems(R) {
            assert c in P && c != v;
          }
        }
      }
    }
  }

  lemma ChildStep<T(!new)>(U: set<T>, N: Adjacency<T>, r: seq<seq<T>>, stack: seq<Frame<T>>,
                     R: seq<T>, P: seq<T>, X: seq<T>, v: T, leaf: bool)
    requires WellFormed(U, N) && GoodFrame(U, N, Frame(R, P, X)) && v in P && !leaf
    requires AllGood(U, N, stack)
    requires Accounted(U, N, r, stack, Frame(R, P, X), !leaf)
    ensures GoodFrame(U, N, Frame(R, RemoveFirst(P, v), AddUnique(X, v)))
    ensures AllGood(U, N, stack + [Frame(AddUnique(R, v), Keep(P, N[v]), Keep(X, N[v]))])
    ensures Accounted(U, N, r, stack + [Frame(AddUnique(R, v), Keep(P, N[v]), Keep(X, N[v]))],
                      Frame(R, RemoveFirst(P, v), AddUnique(X, v)), !leaf)
  {
    var child := Frame(AddUnique(R, v), Keep(P, N[v]), Keep(X, N[v]));
    var rest := Frame(R, RemoveFirst(P, v), AddUnique(X, v));
    NotInOwnNeighbourhood(U, N, Elems(R), v);
    ChildIsGood(U, N, R, P, X, v);
    RestIsGood(U, N, R, P, X, v);
    assert (stack + [child])[..|stack|] == stack;
    forall j | 0 <= j < |stack| + 1 ensures GoodFrame(U, N, (stack + [child])[j]) {
      if j < |stack| {
        assert (stack + [child])[j] == stack[j];
      }
    }
    forall C | IsMaximalClique(U, N, C)
      ensures ReportCount(r, C) + OwnCount(stack + [child], C) +
        (if Owns(rest, C) then 1 else 0) == 1
    {
      SplitOwnership(U, N, R, P, X, v, C);
    }
  }

  lemma ChildIsGood<T>(U: set<T>, N: Adjacency<T>, R: seq<T>, P: seq<T>, X: seq<T>, v: T)
    requires WellFormed(U, N) && GoodFrame(U, N, Frame(R, P, X)) && v in P && v !in R
    ensures GoodFrame(U, N, Frame(AddUnique(R, v), Keep(P, N[v]), Keep(X, N[v])))
  {
    var R' := AddUnique(R, v);
    assert Elems(R') == Elems(R) + {v};
    forall x, y | x in Elems(R') && y in Elems(R') && x != y ensures Adj(N, x, y) {
      if x == v {
        assert AdjToAll(N, Elems(R), v);
      } else if y == v {
        assert Adj(N, v, x);
      }
    }
    forall p | p in Keep(P, N[v]) ensures AdjToAll(N, Elems(R'), p) {
      assert Adj(N, v, p);
    }
    forall x | x in Keep(X, N[v]) ensures AdjToAll(N, Elems(R'), x) {
      assert Adj(N, v, x);
    }
    forall w | w in U && w !in R' && AdjToAll(N, Elems(R'), w)
      ensures w in Keep(P, N[v]) || w in Keep(X, N[v])
    {
      assert AdjToAll(N, Elems(R), w);
      assert Adj(N, w, v);
    }
  }

  lemma RestIsGood<T>(U: set<T>, N: Adjacency<T>, R: seq<T>, P: seq<T>, X: seq<T>, v: T)
    requires WellFormed(U, N) && GoodFrame(U, N, Frame(R, P, X)) && v in P
    ensures GoodFrame(U, N, Frame(R, RemoveFirst(P, v), AddUnique(X, v)))
  {
    var P', X' := RemoveFirst(P, v), AddUnique(X, v);
    assert v in Elems(X');
    forall w | w in U && w !in R && AdjToAll(N, Elems(R), w) ensures w in P' || w in X' {
      assert w in P || w in X;
      assert w == v || w in P' || w in Elems(X');
    }
    forall x | x in X' ensures AdjToAll(N, Elems(R), x) {
      assert x in Elems(X) + {v};
    }
  }

  lemma ChildWeight<T>(U: set<T>, N: Adjacency<T>, stack: seq<Frame<T>>,
                       R: seq<T>, P: seq<T>, X: seq<T>, v: T, n: nat)
    requires WellFormed(U, N) && GoodFrame(U, N, Frame(R, P, X)) && v in P && |P| <= n
    ensures Weight(stack + [Frame(AddUnique(R, v), Keep(P, N[v]), Keep(X, N[v]))]) <= Weight(stack) + Fact(n)
  {
    var child := Frame(AddUnique(R, v), Keep(P, N[v]), Keep(X, N[v]));
    assert Weight(stack + [child]) == Weight(stack) + Fact(|child.P| + 1) by {
      assert (stack + [child])[..|stack|] == stack;
    }
    assert |child.P| + 1 <= n by {
      KeepWithoutLength(P, N[v]);
      assert !Adj(N, v, v);
      assert v in Without(P, N[v]);
    }
    FactMonotone(|child.P| + 1, n);
  }

  /** After its loop a non-leaf frame owns no maximal clique any more: what
      is left of it could still be extended by the pivot. */
  lemma Extender<T>(U: set<T>, N: Adjacency<T>, f: Frame<T>, R: seq<T>, P: seq<T>, X: seq<T>,
                    pd0: seq<T>, leaf: bool, C: set<T>)
    requires WellFormed(U, N) && GoodFrame(U, N, f) && R == f.R
    requires leaf == (f.P == [] && f.X == [])
    requires pd0 == PivotDiff(N, f)
    requires Elems(P) == Elems(f.P) - Elems(pd0)
    ensures !leaf && Owns(Frame(R, P, X), C) ==> exists w :: w in U && w !in C && AdjToAll(N, C, w)
  {
    if !leaf && Owns(Frame(R, P, X), C) {
      if f.P != [] {
        var u := f.P[0];
        assert (f.P + f.X)[0] == u;
        NotInOwnNeighbourhood(U, N, Elems(R), u);
        assert u in pd0;
        assert !Adj(N, u, u);
        assert u !in C;
        assert AdjToAll(N, C, u) by {
          forall c | c in C ensures Adj(N, u, c) {
            if c !in Elems(R) {
              assert c in f.P && c !in pd0;
            }
          }
        }
      } else {
        var x := f.X[0];
        assert x in f.X;
        NotInOwnNeighbourhood(U, N, Elems(R), x);
        assert C == Elems(R);
        assert AdjToAll(N, C, x);
      }
    }
  }

  lemma EndOfFrame<T(!new)>(U: set<T>, N: Adjacency<T>, r: seq<seq<T>>, stack: seq<Frame<T>>,
                      f: Frame<T>, R: seq<T>, P: seq<T>, X: seq<T>, pd0: seq<T>, leaf: bool)
    requires WellFormed(U, N) && GoodFrame(U, N, f) && R == f.R
    requires leaf == (f.P == [] && f.X == [])
    requires pd0 == PivotDiff(N, f)
    requires Elems(P) == Elems(f.P) - Elems(pd0)
    requires Accounted(U, N, r, stack, Frame(R, P, X), !leaf)
    ensures Accounted(U, N, r, stack, Frame([], [], []), false)
  {
    forall C | IsMaximalClique(U, N, C) ensures ReportCount(r, C) + OwnCount(stack, C) == 1 {
      Extender(U, N, f, R, P, X, pd0, leaf, C);
    }
  }

  lemma FrameWeight<T>(S0: seq<Frame<T>>, f: Frame<T>, i: nat, F: nat)
    requires F == Fact(|f.P|) && i <= |f.P|
    ensures Weight(S0) + i * F < Weight(S0 + [f])
  {
    assert (S0 + [f])[..|S0|] == S0;
    FactExceeds(|f.P|);
    assert i * F <= |f.P| * F;
  }

  lemma {:induction false} ReportCountWitness<T>(r: seq<seq<T>>, C: set<T>)
    requires ReportCount(r, C) > 0
    ensures exists k :: 0 <= k < |r| && Elems(r[k]) == C
  {
    if Elems(r[|r| - 1]) != C {
      ReportCountWitness(r[..|r| - 1], C);
      var k :| 0 <= k < |r| - 1 && Elems(r[..|r| - 1][k]) == C;
      assert r[k] == r[..|r| - 1][k];
    }
  }

  lemma {:induction false} ReportCountOne<T>(r: seq<seq<T>>, k: nat)
    requires k < |r|
    ensures ReportCount(r, Elems(r[k])) >= 1
  {
    if k < |r| - 1 {
      ReportCountOne(r[..|r| - 1], k);
      assert r[..|r| - 1][k] == r[k];
    }
  }

  lemma {:induction false} ReportCountAtLeast<T>(r: seq<seq<T>>, k: nat, k': nat)
    requires k < k' < |r|
    ensures ReportCount(r, Elems(r[k'])) >= (if Elems(r[k]) == Elems(r[k']) then 2 else 1)
  {
    var r' := r[..|r| - 1];
    if k' < |r| - 1 {
      ReportCountAtLeast(r', k, k');
      assert r'[k] == r[k] && r'[k'] == r[k'];
    } else {
      ReportCountOne(r', k);
      assert r'[k] == r[k];
    }
  }

  lemma Conclude<T(!new)>(U: set<T>, N: Adjacency<T>, r: seq<seq<T>>)
    requires AllMaximal(U, N, r)
    requires Accounted(U, N, r, [], Frame([], [], []), false)
    ensures forall C :: IsMaximalClique(U, N, C) ==> exists k :: 0 <= k < |r| && Elems(r[k]) == C
    ensures forall k, k' :: 0 <= k < k' < |r| ==> Elems(r[k]) != Elems(r[k'])
  {
    forall C | IsMaximalClique(U, N, C) ensures exists k :: 0 <= k < |r| && Elems(r[k]) == C {
      ReportCountWitness(r, C);
    }
    forall k, k' | 0 <= k < k' < |r| ensures Elems(r[k]) != Elems(r[k']) {
      ReportCountAtLeast(r, k, k');
      assert IsMaximalClique(U, N, Elems(r[k']));
    }
  }

  lemma EmptyUniverse<T>(N: Adjacency<T>, r: seq<seq<T>>)
    requires forall k :: 0 <= k < |r| ==> IsMaximalClique(Elems<T>([]), N, Elems(r[k]))
    requires forall C :: IsMaximalClique(Elems<T>([]), N, C) ==> exists k :: 0 <= k < |r| && Elems(r[k]) == C
    requires forall k, k' :: 0 <= k < k' < |r| ==> Elems(r[k]) != Elems(r[k'])
    ensures r == [[]]
  {
    assert IsMaximalClique(Elems<T>([]), N, {});
    var k :| 0 <= k < |r| && Elems(r[k]) == {};
    forall j | 0 <= j < |r| ensures r[j] == [] {
      assert Elems(r[j]) <= Elems<T>([]);
      ElemsEmpty(r[j]);
    }
    FirstTwoAgree(r);
  }

  lemma ElemsEmpty<T>(s: seq<T>)
    ensures Elems(s) == {} ==> s == []
  {
    assert s != [] ==> s[0] in Elems(s);
  }

  lemma FirstTwoAgree<T>(r: seq<seq<T>>)
    requires forall j :: 0 <= j < |r| ==> r[j] == []
    ensures |r| > 1 ==> Elems(r[0]) == Elems(r[1])
  {
  }
}
