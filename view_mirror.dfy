/** The view worker's mirror of the model (`lib/wwview.js`): the history
    `IDS`, the parent lists `H`, the location coordinates `LC`, the
    locations of each coordinate `CL` and the metric `M`, replayed by `add`
    and `del` messages, plus the factorials and probabilities the views
    show. */
module ViewMirror {
  import opened SeqUtil
  import opened Factorials
  import opened Layout
  import Probabilities

  /** The `data` of an `add` message. */
  datatype Step = Step(ids: Ids, hide: seq<nat>, links: seq<Link>, coords: seq<string>, metric: seq<seq<nat>>)

  /** The five maps of the mirror. */
  datatype Mirror = Mirror(IDS: seq<Ids>, H: map<nat, seq<nat>>, LC: map<nat, string>,
                           CL: map<string, seq<nat>>, M: map<nat, seq<nat>>)

  /** What `del` does: delete, or throw. */
  datatype DelOutcome = Deleted | RangeError | TypeError

  // ---- add ----

  /** `H` after `for (i = ids[0]+1; i <= ids[4]; i++) H.set(i, [])`. */
  function WithEmpty(H: map<nat, seq<nat>>, start: nat, end: int): (r: map<nat, seq<nat>>)
    ensures forall i :: i in r <==> i in H || start <= i <= end
    ensures forall i :: start <= i <= end ==> r[i] == []
    ensures forall i :: i in H && !(start <= i <= end) ==> r[i] == H[i]
    decreases end - start
  {
    if end < start then H else WithEmpty(H, start, end - 1)[end := []]
  }

  /** `links.forEach(l => H.get(l[0]).push(l[1]))`: a child `H` does not hold
      throws, leaving the links before it applied. */
  function LinkAll(H: map<nat, seq<nat>>, links: seq<Link>): (map<nat, seq<nat>>, bool)
    decreases |links|
  {
    if links == [] then (H, true)
    else if links[0].child !in H then (H, false)
    else
      var c := links[0].child;
      LinkAll(H[c := H[c] + [links[0].parent]], links[1..])
  }

  /** The list of `c` before placing. */
  function ListOf(CL: map<string, seq<nat>>, c: string): seq<nat> {
    if c in CL then CL[c] else []
  }

  /** `LC` after the first `n` iterations of the location loop of `add`:
      location `base+k+1` gets coordinate `coords[k]`. */
  function PlacedLC(LC: map<nat, string>, base: nat, coords: seq<string>, n: nat): map<nat, string>
    requires n <= |coords|
  {
    if n == 0 then LC else PlacedLC(LC, base, coords, n - 1)[base + n := coords[n - 1]]
  }

  /** `CL` after the first `n` iterations: each location is appended to its
      coordinate's list, which is created when missing. */
  function PlacedCL(CL: map<string, seq<nat>>, base: nat, coords: seq<string>, n: nat): map<string, seq<nat>>
    requires n <= |coords|
  {
    if n == 0 then CL
    else
      var P := PlacedCL(CL, base, coords, n - 1);
      P[coords[n - 1] := ListOf(P, coords[n - 1]) + [base + n]]
  }

  /** `M` after the first `n` iterations: location `base+k+1` gets
      `metric[k]`. */
  function PlacedM(M: map<nat, seq<nat>>, base: nat, metric: seq<seq<nat>>, n: nat): map<nat, seq<nat>>
    requires n <= |metric|
  {
    if n == 0 then M else PlacedM(M, base, metric, n - 1)[base + n := metric[n - 1]]
  }

  /** The mirror after the first `n` iterations of the location loop of
      `add`. */
  function Placed(st: Mirror, base: nat, coords: seq<string>, metric: seq<seq<nat>>, n: nat): Mirror
    requires n <= |coords| <= |metric|
  {
    st.(LC := PlacedLC(st.LC, base, coords, n), CL := PlacedCL(st.CL, base, coords, n),
        M := PlacedM(st.M, base, metric, n))
  }

  /** The mirror after the history push and the `H` loop of `add`. */
  function Opened(st: Mirror, d: Step): Mirror {
    st.(IDS := st.IDS + [d.ids], H := WithEmpty(st.H, d.ids.prevLoc + 1, d.ids.loc) - Elems(d.hide))
  }

  /** The whole `add` action, and whether it got through without throwing. */
  function AddSpec(st: Mirror, d: Step): (Mirror, bool)
    requires |d.coords| <= |d.metric|
  {
    var st1 := Opened(st, d);
    var (H2, ok) := LinkAll(st1.H, d.links);
    if !ok then (st1.(H := H2), false)
    else (Placed(st1.(H := H2), d.ids.clique, d.coords, d.metric, |d.coords|), true)
  }

  // ---- del ----

  /** One iteration of the location loop of `del`: the metric and the
      coordinate go, then the coordinate's list loses its last entry and is
      dropped when empty, then the parent list goes. A location without a
      coordinate list throws after the first two deletions. */
  function UnplaceOne(st: Mirror, i: nat): (Mirror, bool) {
    var st1 := st.(M := st.M - {i}, LC := st.LC - {i});
    if i !in st.LC || st.LC[i] !in st.CL then (st1, false)
    else
      var coord := st.LC[i];
      var l := st.CL[coord];
      var l' := if l == [] then [] else l[..|l| - 1];
      var CL' := if l' == [] then st.CL - {coord} else st.CL[coord := l'];
      (st1.(CL := CL', H := st.H - {i}), true)
  }

  /** The location loop of `del`, from `hi` down to `lo + 1`. */
  function Unplace(st: Mirror, hi: int, lo: nat): (Mirror, bool)
    decreases hi - lo
  {
    if hi <= lo then (st, true)
    else
      var (st1, ok) := UnplaceOne(st, hi);
      if !ok then (st1, false) else Unplace(st1, hi - 1, lo)
  }

  /** The ids `lo+1..hi` taken out of a map. */
  function DropRange<V>(m: map<nat, V>, lo: nat, hi: int): (r: map<nat, V>)
    ensures forall i :: i in r <==> i in m && !(lo < i <= hi)
    ensures forall i :: i in r ==> r[i] == m[i]
  {
    map i | i in m && !(lo < i <= hi) :: m[i]
  }

  /** The whole `del` action. */
  function DelSpec(st: Mirror): (Mirror, DelOutcome) {
    if |st.IDS| <= 1 then (st, RangeError)
    else
      var ids := st.IDS[|st.IDS| - 1];
      var (st1, ok) := Unplace(st.(IDS := st.IDS[..|st.IDS| - 1]), ids.loc, ids.clique);
      if !ok then (st1, TypeError)
      else (st1.(H := DropRange(st1.H, ids.prevLoc, ids.clique)), Deleted)
  }

  class View {
    var IDS: seq<Ids>
    var H: map<nat, seq<nat>>
    var LC: map<nat, string>
    var CL: map<string, seq<nat>>
    var M: map<nat, seq<nat>>
    /** `fmem`: the factorial memo. */
    var fmem: seq<nat>

    /** The five maps. */
    function State(): Mirror
      reads this
    {
      Mirror(IDS, H, LC, CL, M)
    }

    /** Every memo entry is the factorial of its index. */
    ghost predicate Valid()
      reads this
    {
      FactMemo(fmem)
    }

    /** An empty mirror; the memo starts from the seed that makes entry 0
        hold 0! (see the finding on the seed `[0, 1]`). */
    constructor()
      ensures State() == Mirror([], map[], map[], map[], map[]) && Valid()
    {
      IDS, H, LC, CL, M := [], map[], map[], map[], map[];
      fmem := CorrectedSeed;
    }

    /** `add(d)`. */
    method Add(d: Step) returns (ok: bool)
      requires |d.coords| <= |d.metric|
      modifies this
      ensures (State(), ok) == AddSpec(old(State()), d) && fmem == old(fmem)
    {
      Open(d);
      ghost var st1 := State();
      assert st1 == Opened(old(State()), d);
      ok := LinkIn(d.links);
      assert (State(), ok) == (st1.(H := LinkAll(st1.H, d.links).0), LinkAll(st1.H, d.links).1);
      if ok {
        PlaceAll(d);
      }
    }

    /** The history push and the `H` loops of `add`. */
    method Open(d: Step)
      modifies this
      ensures State() == Opened(old(State()), d) && fmem == old(fmem)
    {
      IDS := IDS + [d.ids];
      Reset(d.ids.prevLoc + 1, d.ids.loc);
      Unlist(d.hide);
    }

    /** `for (i = start; i <= end; i++) H.set(i, [])`. */
    method Reset(start: nat, end: nat)
      modifies this
      ensures H == WithEmpty(old(H), start, end)
      ensures IDS == old(IDS) && LC == old(LC) && CL == old(CL) && M == old(M) && fmem == old(fmem)
    {
      var i: int := start;
      while i <= end
        invariant start <= i && (i <= end + 1 || i == start)
        invariant H == WithEmpty(old(H), start, i - 1)
        invariant IDS == old(IDS) && LC == old(LC) && CL == old(CL) && M == old(M) && fmem == old(fmem)
      {
        H := H[i := []];
        i := i + 1;
      }
    }

    /** `hide.forEach(x => H.delete(x))`. */
    method Unlist(ids: seq<nat>)
      modifies this
      ensures H == old(H) - Elems(ids)
      ensures IDS == old(IDS) && LC == old(LC) && CL == old(CL) && M == old(M) && fmem == old(fmem)
    {
      var k := 0;
      while k < |ids|
        invariant 0 <= k <= |ids|
        invariant H == old(H) - Elems(ids[..k])
        invariant IDS == old(IDS) && LC == old(LC) && CL == old(CL) && M == old(M) && fmem == old(fmem)
      {
        assert Elems(ids[..k + 1]) == Elems(ids[..k]) + {ids[k]} by {
          assert ids[..k + 1] == ids[..k] + [ids[k]];
        }
        H := H - {ids[k]};
        k := k + 1;
      }
      assert ids[..k] == ids;
    }

    /** The link loop of `add`. */
    method LinkIn(links: seq<Link>) returns (ok: bool)
      modifies this
      ensures (H, ok) == LinkAll(old(H), links)
      ensures IDS == old(IDS) && LC == old(LC) && CL == old(CL) && M == old(M) && fmem == old(fmem)
    {
      var k := 0;
      while k < |links|
        invariant 0 <= k <= |links|
        invariant LinkAll(H, links[k..]) == LinkAll(old(H), links)
        invariant IDS == old(IDS) && LC == old(LC) && CL == old(CL) && M == old(M) && fmem == old(fmem)
      {
        var l := links[k];
        assert links[k..][1..] == links[k + 1..];
        if l.child !in H {
          return false;
        }
        H := H[l.child := H[l.child] + [l.parent]];
        k := k + 1;
      }
      return true;
    }

    /** The location loop of `add`. */
    method PlaceAll(d: Step)
      requires |d.coords| <= |d.metric|
      modifies this
      ensures State() == Placed(old(State()), d.ids.clique, d.coords, d.metric, |d.coords|) && fmem == old(fmem)
    {
      var k := 0;
      while k < |d.coords|
        invariant 0 <= k <= |d.coords|
        invariant LC == PlacedLC(old(LC), d.ids.clique, d.coords, k)
        invariant CL == PlacedCL(old(CL), d.ids.clique, d.coords, k)
        invariant M == PlacedM(old(M), d.ids.clique, d.metric, k)
        invariant IDS == old(IDS) && H == old(H) && fmem == old(fmem)
      {
        var loc := d.ids.clique + k + 1;
        var coord := d.coords[k];
        if coord in CL {
          CL := CL[coord := CL[coord] + [loc]];
        } else {
          assert [] + [loc] == [loc];
          CL := CL[coord := [loc]];
        }
        LC := LC[loc := coord];
        M := M[loc := d.metric[k]];
        k := k + 1;
      }
    }

    /** `del(d)`. */
    method Del() returns (out: DelOutcome)
      modifies this
      ensures (State(), out) == DelSpec(old(State())) && fmem == old(fmem)
    {
      if |IDS| <= 1 {
        return RangeError;
      }
      var ids := IDS[|IDS| - 1];
      IDS := IDS[..|IDS| - 1];
      var ok := UnplaceAll(ids.loc, ids.clique);
      if !ok {
        return TypeError;
      }
      DropParents(ids.prevLoc, ids.clique);
      return Deleted;
    }

    /** The location loop of `del`. */
    method UnplaceAll(hi: nat, lo: nat) returns (ok: bool)
      modifies this
      ensures (State(), ok) == Unplace(old(State()), hi, lo) && fmem == old(fmem)
    {
      var i: int := hi;
      while i > lo
        invariant Unplace(State(), i, lo) == Unplace(old(State()), hi, lo)
        invariant fmem == old(fmem)
        decreases i
      {
        ghost var before := State();
        M := M - {i};
        if !(i in LC && LC[i] in CL) {
          LC := LC - {i};
          assert (State(), false) == UnplaceOne(before, i);
          return false;
        }
        var coord := LC[i];
        LC := LC - {i};
        var l := CL[coord];
        if l != [] {
          l := l[..|l| - 1];
        }
        if l == [] {
          CL := CL - {coord};
        } else {
          CL := CL[coord := l];
        }
        H := H - {i};
        assert (State(), true) == UnplaceOne(before, i);
        i := i - 1;
      }
      return true;
    }

    /** The last loop of `del`: the parent lists of `lo+1..hi` go. */
    method DropParents(lo: nat, hi: nat)
      modifies this
      ensures State() == old(State()).(H := DropRange(old(H), lo, hi)) && fmem == old(fmem)
    {
      var i: int := hi;
      while i > lo
        invariant lo <= i <= hi || i == hi
        invariant State() == old(State()).(H := DropRange(old(H), i, hi))
        invariant fmem == old(fmem)
        decreases i
      {
        H := H - {i};
        i := i - 1;
      }
    }

    /** `factorial(n)`: n!, growing the memo as far as `n`. */
    method Factorial(n: nat) returns (r: nat)
      requires Valid()
      modifies this
      ensures Valid() && r == Fact(n)
      ensures fmem == Grow(old(fmem), n) && State() == old(State())
    {
      var m;
      m, r := MemoFactorial(fmem, n);
      fmem := m;
    }

    /** `probs(cliques)`, keeping the integer numerators: every clique is
        weighed by the factorial of its number of parents. A clique without a
        parent list throws. */
    method Probs(cliques: seq<nat>) returns (p: seq<nat>, ok: bool)
      requires Valid()
      modifies this
      ensures Valid() && State() == old(State())
      ensures ok <==> forall x :: x in cliques ==> x in H
      ensures ok ==> var lens := ParentCounts(H, cliques);
        |p| == |cliques| && (cliques != [] ==> Probabilities.Total(Probabilities.FactWeights(lens)) > 0) &&
        forall i :: 0 <= i < |p| ==> p[i] == Probabilities.Share(Fact(lens[i]), Probabilities.Total(Probabilities.FactWeights(lens)))
    {
      if exists x :: x in cliques && x !in H {
        return [], false;
      }
      var lens := ParentCounts(H, cliques);
      var m;
      m, p := Probabilities.Probs(fmem, lens);
      fmem := m;
      ok := true;
      assert lens == ParentCounts(H, cliques);
      assert |p| == |cliques|;
      assert forall i :: 0 <= i < |p| ==> p[i] == Probabilities.Share(Fact(lens[i]), Probabilities.Total(Probabilities.FactWeights(lens)));
      assert Valid();
      assert State() == old(State());
      assert forall x :: x in cliques ==> x in H;
    }
  }

  /** `|H.get(x)|` for each clique `x`. */
  function ParentCounts(H: map<nat, seq<nat>>, cliques: seq<nat>): (r: seq<nat>)
    requires forall x :: x in cliques ==> x in H
    ensures |r| == |cliques| && forall i :: 0 <= i < |cliques| ==> r[i] == |H[cliques[i]]|
  {
    seq(|cliques|, i requires 0 <= i < |cliques| => |H[cliques[i]]|)
  }

  // ---- properties ----

  /** The link loop goes through exactly when every child has a parent list;
      it keeps the keys, and when it goes through every list gets the
      parents its links give it appended. */
  lemma {:induction false} LinkAllParents(H: map<nat, seq<nat>>, links: seq<Link>)
    ensures LinkAll(H, links).1 <==> forall k :: 0 <= k < |links| ==> links[k].child in H
    ensures LinkAll(H, links).0.Keys == H.Keys
    ensures LinkAll(H, links).1 ==> forall v :: v in H ==> LinkAll(H, links).0[v] == H[v] + ParentsFrom(links, v)
  {
    LinkAllOk(H, links);
    LinkAllKeys(H, links);
    forall v | v in H && LinkAll(H, links).1
      ensures LinkAll(H, links).0[v] == H[v] + ParentsFrom(links, v)
    {
      LinkAllAt(H, links, v);
    }
  }

  /** Linking succeeds exactly when every child is already in the mirror. */
  lemma {:induction false} LinkAllOk(H: map<nat, seq<nat>>, links: seq<Link>)
    ensures LinkAll(H, links).1 <==> forall k :: 0 <= k < |links| ==> links[k].child in H
    decreases |links|
  {
    if links != [] && links[0].child in H {
      var c := links[0].child;
      var H1 := H[c := H[c] + [links[0].parent]];
      LinkAllOk(H1, links[1..]);
      assert H1.Keys == H.Keys;
      assert forall k :: 1 <= k < |links| ==> links[k] == links[1..][k - 1];
    } else if links != [] {
      assert !(forall k :: 0 <= k < |links| ==> links[k].child in H) by {
        assert links[0].child !in H;
      }
    }
  }

  /** Linking never adds or removes an id. */
  lemma {:induction false} LinkAllKeys(H: map<nat, seq<nat>>, links: seq<Link>)
    ensures LinkAll(H, links).0.Keys == H.Keys
    decreases |links|
  {
    if links != [] && links[0].child in H {
      var c := links[0].child;
      var H1 := H[c := H[c] + [links[0].parent]];
      LinkAllKeys(H1, links[1..]);
    }
  }

  /** After a successful linking, each id has gained its parents in link order. */
  lemma {:induction false} LinkAllAt(H: map<nat, seq<nat>>, links: seq<Link>, v: nat)
    requires v in H && LinkAll(H, links).1
    ensures v in LinkAll(H, links).0
    ensures LinkAll(H, links).0[v] == H[v] + ParentsFrom(links, v)
    decreases |links|
  {
    if links != [] {
      var c := links[0].child;
      var H1 := H[c := H[c] + [links[0].parent]];
      LinkAllAt(H1, links[1..], v);
      if v == c {
        SeqUtil.AppendAssoc(H[v], [links[0].parent], ParentsFrom(links[1..], v));
      } else {
        assert H1[v] == H[v];
      }
    }
  }


  /** `add` goes through exactly when every link names a new, unhidden id or
      one `H` already held; the new parent lists are exactly the ids
      `ids[0]+1..ids[4]` that are not hidden, each with the parents its links
      give it. */
  lemma AddBuildsParents(st: Mirror, d: Step)
    requires |d.coords| <= |d.metric|
    ensures var a, b := d.ids.prevLoc + 1, d.ids.loc;
      (AddSpec(st, d).1 <==> forall k :: 0 <= k < |d.links| ==>
        (d.links[k].child in st.H || a <= d.links[k].child <= b) && d.links[k].child !in d.hide)
    ensures AddSpec(st, d).1 ==>
      var a, b, H' := d.ids.prevLoc + 1, d.ids.loc, AddSpec(st, d).0.H;
      (forall i :: i in H' <==> (i in st.H || a <= i <= b) && i !in d.hide) &&
      (forall i :: a <= i <= b && i !in d.hide ==> H'[i] == ParentsFrom(d.links, i))
    ensures AddSpec(st, d).0.IDS == st.IDS + [d.ids]
  {
    var st1 := Opened(st, d);
    LinkAllParents(st1.H, d.links);
    var (H2, ok) := LinkAll(st1.H, d.links);
    if ok {
      forall i | d.ids.prevLoc + 1 <= i <= d.ids.loc && i !in d.hide
        ensures H2[i] == ParentsFrom(d.links, i)
      {
        assert st1.H[i] == [];
      }
    }
  }

  /** The locations `base+1..base+n` whose coordinate is `c`, in order. */
  function LocsAt(base: nat, coords: seq<string>, c: string, n: nat): seq<nat>
    requires n <= |coords|
  {
    if n == 0 then []
    else LocsAt(base, coords, c, n - 1) + (if coords[n - 1] == c then [base + n] else [])
  }


  /** Placing gives location `base+k+1` the coordinate `coords[k]` and
      keeps every other coordinate entry. */
  lemma {:induction false} PlacedCoords(LC0: map<nat, string>, base: nat, coords: seq<string>, n: nat)
    requires n <= |coords|
    ensures var LC := PlacedLC(LC0, base, coords, n);
      (forall i :: i in LC <==> i in LC0 || base < i <= base + n) &&
      (forall k :: 0 <= k < n ==> LC[base + k + 1] == coords[k]) &&
      (forall i :: i in LC0 && !(base < i <= base + n) ==> LC[i] == LC0[i])
  {
    if n > 0 {
      PlacedCoords(LC0, base, coords, n - 1);
    }
  }

  /** Placing gives location `base+k+1` the metric `metric[k]` and keeps
      every other metric entry. */
  lemma {:induction false} PlacedMetric(M0: map<nat, seq<nat>>, base: nat, metric: seq<seq<nat>>, n: nat)
    requires n <= |metric|
    ensures var M := PlacedM(M0, base, metric, n);
      (forall i :: i in M <==> i in M0 || base < i <= base + n) &&
      (forall k :: 0 <= k < n ==> M[base + k + 1] == metric[k]) &&
      (forall i :: i in M0 && !(base < i <= base + n) ==> M[i] == M0[i])
  {
    if n > 0 {
      PlacedMetric(M0, base, metric, n - 1);
    }
  }

  /** Placing appends each location to its coordinate's list, in order. */
  lemma PlacedLists(CL0: map<string, seq<nat>>, base: nat, coords: seq<string>, n: nat)
    requires n <= |coords|
    ensures var CL := PlacedCL(CL0, base, coords, n);
      (forall c :: c in CL <==> c in CL0 || c in coords[..n]) &&
      (forall c :: c in CL ==> CL[c] == ListOf(CL0, c) + LocsAt(base, coords, c, n))
  {
    forall c ensures var CL := PlacedCL(CL0, base, coords, n);
      (c in CL <==> c in CL0 || c in coords[..n]) &&
      ListOf(CL, c) == ListOf(CL0, c) + LocsAt(base, coords, c, n)
    {
      PlacedListOf(CL0, base, coords, n, c);
    }
  }

  /** `PlacedLists` for one coordinate. */
  lemma {:induction false} PlacedListOf(CL0: map<string, seq<nat>>, base: nat, coords: seq<string>, n: nat, c: string)
    requires n <= |coords|
    ensures var CL := PlacedCL(CL0, base, coords, n);
      (c in CL <==> c in CL0 || c in coords[..n]) &&
      ListOf(CL, c) == ListOf(CL0, c) + LocsAt(base, coords, c, n)
  {
    PlacedHas(CL0, base, coords, n, c);
    PlacedListAt(CL0, base, coords, n, c);
  }

  /** A coordinate has a list after placing exactly when it had one or
      occurs among the placed ones. */
  lemma {:induction false} PlacedHas(CL0: map<string, seq<nat>>, base: nat, coords: seq<string>, n: nat, c: string)
    requires n <= |coords|
    ensures c in PlacedCL(CL0, base, coords, n) <==> c in CL0 || c in coords[..n]
  {
    if n > 0 {
      PlacedHas(CL0, base, coords, n - 1, c);
      assert coords[..n] == coords[..n - 1] + [coords[n - 1]];
    }
  }

  /** The list of a coordinate after placing: the old one followed by
      the new locations at that coordinate. */
  lemma {:induction false} PlacedListAt(CL0: map<string, seq<nat>>, base: nat, coords: seq<string>, n: nat, c: string)
    requires n <= |coords|
    ensures ListOf(PlacedCL(CL0, base, coords, n), c) == ListOf(CL0, c) + LocsAt(base, coords, c, n)
  {
    if n > 0 {
      PlacedListAt(CL0, base, coords, n - 1, c);
      var A, L0 := ListOf(CL0, c), LocsAt(base, coords, c, n - 1);
      var P0 := PlacedCL(CL0, base, coords, n - 1);
      if c == coords[n - 1] {
        assert ListOf(PlacedCL(CL0, base, coords, n), c) == ListOf(P0, c) + [base + n];
        AppendAssoc(A, L0, [base + n]);
      } else {
        assert LocsAt(base, coords, c, n) == L0 + [] == L0;
      }
    }
  }

  /** A coordinate that occurs has a location. */
  lemma {:induction false} LocsAtHas(base: nat, coords: seq<string>, c: string, n: nat)
    requires n <= |coords| && c in coords[..n]
    ensures |LocsAt(base, coords, c, n)| > 0
  {
    if coords[n - 1] != c {
      assert coords[..n] == coords[..n - 1] + [coords[n - 1]];
      LocsAtHas(base, coords, c, n - 1);
    }
  }

  /** The location loop of `del` undoes the location loop of `add` on
      coordinate lists that are non-empty and locations that all lie below
      the new ones; it only adds the deletion of the new parent lists. */
  lemma {:induction false} PlaceUnplace(ids: seq<Ids>, H: map<nat, seq<nat>>, LC0: map<nat, string>,
                                        CL0: map<string, seq<nat>>, M0: map<nat, seq<nat>>,
                                        base: nat, coords: seq<string>, metric: seq<seq<nat>>, n: nat)
    requires n <= |coords| <= |metric|
    requires (forall i :: i in LC0 ==> i <= base) && (forall i :: i in M0 ==> i <= base)
    requires forall c :: c in CL0 ==> CL0[c] != []
    ensures Unplace(Mirror(ids, H, PlacedLC(LC0, base, coords, n), PlacedCL(CL0, base, coords, n),
                           PlacedM(M0, base, metric, n)), base + n, base)
      == (Mirror(ids, H - IdRange(base + 1, base + n), LC0, CL0, M0), true)
    decreases n
  {
    if n == 0 {
      assert H - IdRange(base + 1, base) == H;
    } else {
      var H' := H - {base + n};
      PlaceUnplace(ids, H', LC0, CL0, M0, base, coords, metric, n - 1);
      UnplaceOneMore(ids, H, H', LC0, CL0, M0, base, coords, metric, n);
    }
  }

  /** The induction step of `PlaceUnplace`. */
  lemma UnplaceOneMore(ids: seq<Ids>, H: map<nat, seq<nat>>, H': map<nat, seq<nat>>, LC0: map<nat, string>,
                       CL0: map<string, seq<nat>>, M0: map<nat, seq<nat>>,
                       base: nat, coords: seq<string>, metric: seq<seq<nat>>, n: nat)
    requires 0 < n <= |coords| <= |metric|
    requires (forall i :: i in LC0 ==> i <= base) && (forall i :: i in M0 ==> i <= base)
    requires forall c :: c in CL0 ==> CL0[c] != []
    requires H' == H - {base + n}
    requires Unplace(Mirror(ids, H', PlacedLC(LC0, base, coords, n - 1), PlacedCL(CL0, base, coords, n - 1),
                            PlacedM(M0, base, metric, n - 1)), base + (n - 1), base)
      == (Mirror(ids, H' - IdRange(base + 1, base + (n - 1)), LC0, CL0, M0), true)
    ensures Unplace(Mirror(ids, H, PlacedLC(LC0, base, coords, n), PlacedCL(CL0, base, coords, n),
                           PlacedM(M0, base, metric, n)), base + n, base)
      == (Mirror(ids, H - IdRange(base + 1, base + n), LC0, CL0, M0), true)
  {
    UnplaceFirst(ids, H, LC0, CL0, M0, base, coords, metric, n);
    DropOneMore(H, base, n);
  }

  lemma DropOneMore(H: map<nat, seq<nat>>, base: nat, n: nat)
    requires n > 0
    ensures H - {base + n} - IdRange(base + 1, base + (n - 1)) == H - IdRange(base + 1, base + n)
  {
    assert IdRange(base + 1, base + n) == IdRange(base + 1, base + (n - 1)) + {base + n};
  }

  /** The first iteration of the location loop of `del` after `n`
      locations were placed takes off the last one. */
  lemma UnplaceFirst(ids: seq<Ids>, H: map<nat, seq<nat>>, LC0: map<nat, string>,
                     CL0: map<string, seq<nat>>, M0: map<nat, seq<nat>>,
                     base: nat, coords: seq<string>, metric: seq<seq<nat>>, n: nat)
    requires 0 < n <= |coords| <= |metric|
    requires (forall i :: i in LC0 ==> i <= base) && (forall i :: i in M0 ==> i <= base)
    requires forall c :: c in CL0 ==> CL0[c] != []
    ensures Unplace(Mirror(ids, H, PlacedLC(LC0, base, coords, n), PlacedCL(CL0, base, coords, n),
                           PlacedM(M0, base, metric, n)), base + n, base)
      == Unplace(Mirror(ids, H - {base + n}, PlacedLC(LC0, base, coords, n - 1), PlacedCL(CL0, base, coords, n - 1),
                        PlacedM(M0, base, metric, n - 1)), base + (n - 1), base)
  {
    var LC, CL, M := PlacedLC(LC0, base, coords, n - 1), PlacedCL(CL0, base, coords, n - 1), PlacedM(M0, base, metric, n - 1);
    var i := base + n;
    assert i !in LC && i !in M by {
      PlacedCoords(LC0, base, coords, n - 1);
      PlacedMetric(M0, base, metric, n - 1);
    }
    assert forall x :: x in CL ==> CL[x] != [] by {
      PlacedNonEmpty(CL0, base, coords, n - 1);
    }
    var st' := Mirror(ids, H, PlacedLC(LC0, base, coords, n), PlacedCL(CL0, base, coords, n), PlacedM(M0, base, metric, n));
    UnplaceLast(LC, CL, M, st', i, coords[n - 1], metric[n - 1]);
    UnplaceStep(st', i, base);
  }

  /** One iteration of the location loop of `del` that goes through. */
  lemma UnplaceStep(st: Mirror, hi: nat, lo: nat)
    requires lo < hi && UnplaceOne(st, hi).1
    ensures Unplace(st, hi, lo) == Unplace(UnplaceOne(st, hi).0, hi - 1, lo)
  {
  }

  /** `del` takes off the last location placed. */
  lemma UnplaceLast(LC: map<nat, string>, CL: map<string, seq<nat>>, M: map<nat, seq<nat>>,
                    st': Mirror, i: nat, c: string, m: seq<nat>)
    requires i !in LC && i !in M && forall x :: x in CL ==> CL[x] != []
    requires st'.LC == LC[i := c] && st'.CL == CL[c := ListOf(CL, c) + [i]] && st'.M == M[i := m]
    ensures UnplaceOne(st', i) == (Mirror(st'.IDS, st'.H - {i}, LC, CL, M), true)
  {
    var l := ListOf(CL, c) + [i];
    assert st'.LC[i] == c && st'.CL[c] == l;
    assert l[..|l| - 1] == ListOf(CL, c);
    assert st'.LC - {i} == LC;
    assert st'.M - {i} == M;
    if c in CL {
      assert CL[c] != [];
      assert st'.CL[c := CL[c]] == CL;
    } else {
      assert st'.CL - {c} == CL;
    }
  }

  /** Placing keeps every coordinate list non-empty. */
  lemma PlacedNonEmpty(CL0: map<string, seq<nat>>, base: nat, coords: seq<string>, n: nat)
    requires n <= |coords|
    requires forall c :: c in CL0 ==> CL0[c] != []
    ensures forall c :: c in PlacedCL(CL0, base, coords, n) ==> PlacedCL(CL0, base, coords, n)[c] != []
  {
    var CL := PlacedCL(CL0, base, coords, n);
    forall x | x in CL ensures CL[x] != [] {
      PlacedListOf(CL0, base, coords, n, x);
      if x !in CL0 {
        LocsAtHas(base, coords, x, n);
      }
    }
  }

  /** What a mirror keeps between messages: no coordinate has an empty
      list. */
  ghost predicate Consistent(st: Mirror) {
    forall c :: c in st.CL ==> st.CL[c] != []
  }

  /** A step that fits on top of `st`: its ids lie above every id the mirror
      holds, its locations are exactly `ids[3]+1..ids[4]`, it hides only new
      ids and links only new, unhidden children. */
  ghost predicate FreshStep(st: Mirror, d: Step) {
    Shaped(d) && Below(st, d.ids.prevLoc) && LinksNew(d)
  }

  /** The ids are in order and the locations are `ids[3]+1..ids[4]`. */
  ghost predicate Shaped(d: Step) {
    Ordered(d.ids) && d.ids.loc == d.ids.clique + |d.coords| && |d.coords| <= |d.metric|
  }

  /** Every id the mirror holds is at most `b`. */
  ghost predicate Below(st: Mirror, b: nat) {
    (forall i :: i in st.H ==> i <= b) && (forall i :: i in st.LC ==> i <= b) && (forall i :: i in st.M ==> i <= b)
  }

  /** The step hides only new ids and links only new, unhidden children. */
  ghost predicate LinksNew(d: Step) {
    (forall x :: x in d.hide ==> d.ids.prevLoc < x) &&
    (forall k :: 0 <= k < |d.links| ==>
      d.ids.prevLoc < d.links[k].child <= d.ids.loc && d.links[k].child !in d.hide)
  }

  /** `add` of a fresh step followed by `del` gives back the mirror it
      started from. */
  lemma AddThenDelRestores(st: Mirror, d: Step)
    requires |st.IDS| >= 1 && Consistent(st) && FreshStep(st, d)
    ensures AddSpec(st, d).1
    ensures DelSpec(AddSpec(st, d).0) == (st, Deleted)
  {
    var ids := d.ids;
    var H2 := LinkAll(Opened(st, d).H, d.links).0;
    var P := Placed(Mirror(st.IDS + [ids], H2, st.LC, st.CL, st.M), ids.clique, d.coords, d.metric, |d.coords|);
    var R := Mirror(st.IDS, H2 - IdRange(ids.clique + 1, ids.loc), st.LC, st.CL, st.M);
    AddOutcome(st, d);
    UnplaceAdded(st, d, H2);
    assert P == Mirror(st.IDS + [ids], H2, P.LC, P.CL, P.M);
    DelAfter(st.IDS, ids, H2, P.LC, P.CL, P.M, R);
    ParentsRestored(st, d);
  }

  /** The location loop of `del` after the location loop of `add` takes out
      exactly the new locations. */
  lemma UnplaceAdded(st: Mirror, d: Step, H2: map<nat, seq<nat>>)
    requires Consistent(st) && Shaped(d) && Below(st, d.ids.prevLoc)
    ensures var P := Placed(Mirror(st.IDS + [d.ids], H2, st.LC, st.CL, st.M), d.ids.clique, d.coords, d.metric, |d.coords|);
      Unplace(Mirror(st.IDS, H2, P.LC, P.CL, P.M), d.ids.loc, d.ids.clique) ==
      (Mirror(st.IDS, H2 - IdRange(d.ids.clique + 1, d.ids.loc), st.LC, st.CL, st.M), true)
  {
    assert (forall i :: i in st.LC ==> i <= d.ids.clique) && (forall i :: i in st.M ==> i <= d.ids.clique);
    UnplacesPlaced(st.IDS, H2, st.LC, st.CL, st.M, d.ids.clique, d.coords, d.metric, d.ids.loc);
  }

  /** `PlaceUnplace` for all the coordinates of a step, ending at `hi`. */
  lemma UnplacesPlaced(ids: seq<Ids>, H: map<nat, seq<nat>>, LC0: map<nat, string>,
                   CL0: map<string, seq<nat>>, M0: map<nat, seq<nat>>,
                   base: nat, coords: seq<string>, metric: seq<seq<nat>>, hi: nat)
    requires hi == base + |coords| && |coords| <= |metric|
    requires (forall i :: i in LC0 ==> i <= base) && (forall i :: i in M0 ==> i <= base)
    requires forall c :: c in CL0 ==> CL0[c] != []
    ensures Unplace(Mirror(ids, H, PlacedLC(LC0, base, coords, |coords|), PlacedCL(CL0, base, coords, |coords|),
                           PlacedM(M0, base, metric, |coords|)), hi, base)
      == (Mirror(ids, H - IdRange(base + 1, hi), LC0, CL0, M0), true)
  {
    PlaceUnplace(ids, H, LC0, CL0, M0, base, coords, metric, |coords|);
  }

  /** `del` on a mirror whose location loop goes through to `R`. */
  lemma DelAfter(prefix: seq<Ids>, ids: Ids, H: map<nat, seq<nat>>, LC: map<nat, string>,
                  CL: map<string, seq<nat>>, M: map<nat, seq<nat>>, R: Mirror)
    requires |prefix| >= 1 && Unplace(Mirror(prefix, H, LC, CL, M), ids.loc, ids.clique) == (R, true)
    ensures DelSpec(Mirror(prefix + [ids], H, LC, CL, M)) == (R.(H := DropRange(R.H, ids.prevLoc, ids.clique)), Deleted)
  {
    assert (prefix + [ids])[..|prefix|] == prefix;
  }

  /** A fresh `add` gets through: it pushes its ids, links its parents and
      places its locations on the coordinates already there. */
  lemma AddOutcome(st: Mirror, d: Step)
    requires FreshStep(st, d)
    ensures AddSpec(st, d) ==
      (Placed(Mirror(st.IDS + [d.ids], LinkAll(Opened(st, d).H, d.links).0, st.LC, st.CL, st.M),
              d.ids.clique, d.coords, d.metric, |d.coords|), true)
  {
    var st1 := Opened(st, d);
    LinkAllParents(st1.H, d.links);
    assert st1.(H := LinkAll(st1.H, d.links).0) ==
      Mirror(st.IDS + [d.ids], LinkAll(Opened(st, d).H, d.links).0, st.LC, st.CL, st.M);
  }

  /** The parent lists `del` leaves after a fresh `add` are the ones before. */
  lemma ParentsRestored(st: Mirror, d: Step)
    requires FreshStep(st, d)
    ensures var H2 := LinkAll(Opened(st, d).H, d.links).0;
      DropRange(H2 - IdRange(d.ids.clique + 1, d.ids.loc), d.ids.prevLoc, d.ids.clique) == st.H
  {
    var H1 := Opened(st, d).H;
    OpenedHasChildren(st, d);
    LinkAllOk(H1, d.links);
    LinkAllKeys(H1, d.links);
    var H2 := LinkAll(H1, d.links).0;
    var H3 := DropRange(H2 - IdRange(d.ids.clique + 1, d.ids.loc), d.ids.prevLoc, d.ids.clique);
    forall i | i in st.H ensures i in H3 && H3[i] == st.H[i] {
      OpenedKeeps(st, d, i);
      LinkAllAt(H1, d.links, i);
      ParentsFromNone(d.links, i);
    }
    forall i | i in H3 ensures i in st.H {
      OpenedKeys(st, d, i);
    }
    assert H3 == st.H;
  }

  /** Opening a step keeps every id the mirror already held. */
  lemma OpenedKeeps(st: Mirror, d: Step, i: nat)
    requires Below(st, d.ids.prevLoc) && LinksNew(d) && i in st.H
    ensures i in Opened(st, d).H && Opened(st, d).H[i] == st.H[i]
  {
    assert i !in Elems(d.hide);
  }

  /** Opening a step adds only the new ids. */
  lemma OpenedKeys(st: Mirror, d: Step, i: nat)
    requires i in Opened(st, d).H
    ensures i in st.H || d.ids.prevLoc < i <= d.ids.loc
  {
  }

  /** Every child a fresh step links is in the mirror once the step is opened. */
  lemma OpenedHasChildren(st: Mirror, d: Step)
    requires LinksNew(d)
    ensures forall k :: 0 <= k < |d.links| ==> d.links[k].child in Opened(st, d).H
  {
    forall k | 0 <= k < |d.links| ensures d.links[k].child in Opened(st, d).H {
      assert d.links[k].child !in Elems(d.hide);
    }
  }

}
