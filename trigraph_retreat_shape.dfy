/** `prev` keeps the invariant of the trigraph. */
module TrigraphRetreatShape {
  import opened SeqUtil
  import opened Factorials
  import opened TrigraphGraph
  import opened TrigraphPlace
  import opened TrigraphStore
  import opened TrigraphStep
  import opened TrigraphRetreat

  /** What `prev` keeps of the vertices and locations it does not delete. */
  ghost predicate Kept(st: Store, st2: Store) {
    var l := st.level - 3;
    (forall x :: x in st2.V <==> x in st.V && st.V[x].level <= l) &&
    (forall x :: x in st2.V ==>
      st2.V[x].level == st.V[x].level && st2.V[x].parents == st.V[x].parents && st2.V[x].kind == st.V[x].kind) &&
    |st2.locs| == |st.locs| &&
    (forall h :: 0 <= h < |st.locs| ==> st2.locs[h].coordinate == st.locs[h].coordinate)
  }

  /** The levels, steps, counter and memo after `prev`. */
  ghost predicate Lowered(st: Store, st2: Store) {
    var l := st.level - 3;
    st2.level == l && st2.memo == st.memo && st2.id + |Gone(st.V, l)| == st.id &&
    (forall j :: j in st2.L <==> j in st.L && j <= l) &&
    (forall j :: j in st2.L ==> st2.L[j] == st.L[j]) &&
    (forall j :: j in st2.T <==> j in st.T && j != st.level / 3) &&
    (forall j :: j in st2.T ==> st2.T[j] == st.T[j])
  }

  /** The coordinates `prev` keeps, each listing its locations but those of
      the last step. */
  ghost predicate Uncharted(st: Store, st2: Store) {
    var hs := Level(st.T, st.level / 3);
    (forall c :: c in st2.S <==> c in st.S && Without(st.S[c], hs) != []) &&
    (forall c :: c in st2.S ==> st2.S[c] == Without(st.S[c], hs))
  }

  lemma RetreatKept(st: Store)
    requires Shape(st) && st.level > 3
    ensures Kept(st, Retreat(st))
  {
  }

  lemma RetreatLowered(st: Store)
    requires Shape(st) && st.level > 3
    ensures Lowered(st, Retreat(st))
  {
  }

  lemma RetreatUncharted(st: Store)
    requires Shape(st) && st.level > 3
    ensures Uncharted(st, Retreat(st))
  {
    var k := st.level / 3;
    assert k in st.T;
    assert Filed(st.S, st.locs);
    UnchartWithout(st.S, st.locs, Level(st.T, k));
  }

  /** Three steps below a multiple of three is one again. */
  lemma LessThree(n: nat)
    requires n >= 3 && n % 3 == 0
    ensures (n - 3) % 3 == 0 && (n - 3) / 3 == n / 3 - 1
  {
  }

  lemma KeptLayered(st: Store, st2: Store)
    requires Shape(st) && st.level > 3 && Kept(st, st2) && Lowered(st, st2)
    ensures Layered(st2)
  {
    LessThree(st.level);
    forall x | x in st2.V ensures 1 <= st2.V[x].level <= st2.level && x in st2.L[st2.V[x].level] {
      assert st2.V[x].level in st.L;
    }
  }

  lemma KeptNumbered(st: Store, st2: Store)
    requires Shape(st) && st.level > 3 && Kept(st, st2) && Lowered(st, st2)
    ensures Numbered(st2)
  {
    forall x | x in st2.V ensures x <= st2.id {
      KeptBelowGone(st, x);
    }
  }

  lemma KeptStepped(st: Store, st2: Store)
    requires Shape(st) && st.level > 3 && Kept(st, st2) && Lowered(st, st2) && Uncharted(st, st2)
    ensures Stepped(st2)
  {
    var hs := st.T[st.level / 3];
    forall j | j in st2.T ensures forall h :: h in st2.T[j] ==>
      h < |st2.locs| && st2.locs[h].coordinate in st2.S && h in st2.S[st2.locs[h].coordinate]
    {
      forall h | h in st2.T[j] ensures h < |st2.locs| && st2.locs[h].coordinate in st2.S && h in st2.S[st2.locs[h].coordinate] {
        var c := st.locs[h].coordinate;
        assert h !in hs;
        assert h in Without(st.S[c], hs);
      }
    }
  }

  lemma KeptCharted(st: Store, st2: Store)
    requires Shape(st) && st.level > 3 && Kept(st, st2) && Lowered(st, st2) && Uncharted(st, st2)
    ensures Charted(st2)
  {
    var k := st.level / 3;
    var hs := st.T[k];
    forall c | c in st2.S ensures forall h :: h in st2.S[c] ==> h < |st2.locs| && st2.locs[h].coordinate == c && h in Recorded(st2.T) {
      forall h | h in st2.S[c] ensures h < |st2.locs| && st2.locs[h].coordinate == c && h in Recorded(st2.T) {
        assert h in st.S[c] && h !in hs;
        assert h in Recorded(st.T);
        var j :| j in st.T && h in st.T[j];
        assert j != k;
        assert j in st2.T && h in st2.T[j];
      }
    }
  }

  /** `prev` keeps the invariant. */
  lemma RetreatShape(st: Store)
    requires Shape(st) && st.level > 3
    ensures Shape(Retreat(st))
  {
    var st2 := Retreat(st);
    RetreatKept(st);
    RetreatLowered(st);
    RetreatUncharted(st);
    KeptLayered(st, st2);
    KeptNumbered(st, st2);
    KeptStepped(st, st2);
    KeptCharted(st, st2);
    assert HandlesBelow(st2.V, |st2.locs|);
  }
}
