/** The fields of a `Trigraph` of `modules/Trigraph.mjs` as one value, and
    the invariant `next` and `prev` keep: levels come in steps of three
    (operations, states, cliques), `L` lists the vertices of every level,
    ids grow from step to step, `T` lists the locations of every step and
    `S` lists every recorded location under its coordinate. */
module TrigraphStore {
  import opened SeqUtil
  import opened Factorials
  import opened TrigraphGraph
  import opened TrigraphPlace

  /** `V`, `L`, `T`, `S`, the locations by handle, `id`, `level` and
      `factCache`. */
  datatype Store = Store(V: Vertices, L: map<nat, seq<nat>>, T: map<nat, seq<nat>>, S: map<string, seq<nat>>,
                         locs: seq<Location>, id: nat, level: nat, memo: seq<nat>)

  /** The step a level belongs to: levels `3s - 2`, `3s - 1` and `3s` make
      step `s`. */
  function StepOf(l: nat): (s: nat)
    ensures 3 * s - 2 <= l <= 3 * s
  {
    (l + 2) / 3
  }

  /** `getStep(lev)`: `round(lev / 3)`, with a missing or zero level read as
      the current one. */
  function GetStep(level: nat, lev: nat): (r: nat)
    ensures var l := if lev == 0 then level else lev; 3 * r - 1 <= l <= 3 * r + 1
  {
    var l := if lev == 0 then level else lev;
    (l + 1) / 3
  }

  /** Every location some step records. */
  ghost function Recorded(T: map<nat, seq<nat>>): set<nat> {
    set k, h | k in T && h in T[k] :: h
  }

  /** Levels `1..level`, each listed in `L` without duplicates, and every
      vertex listed under its own level. */
  ghost predicate Layered(st: Store) {
    st.level % 3 == 0 &&
    (forall l :: l in st.L <==> 1 <= l <= st.level) &&
    (forall l :: l in st.L ==> st.L[l] != [] && NoDup(st.L[l])) &&
    (forall l :: l in st.L ==> forall x :: x in st.L[l] ==> x in st.V && st.V[x].level == l) &&
    (forall x :: x in st.V ==> 1 <= st.V[x].level <= st.level && x in st.L[st.V[x].level])
  }

  /** No parent id is above its child's, no id above the counter, and a
      later step has larger ids. */
  ghost predicate Numbered(st: Store) {
    Below(st.V) && (forall x :: x in st.V ==> x <= st.id) &&
    forall x, y :: x in st.V && y in st.V && StepOf(st.V[x].level) < StepOf(st.V[y].level) ==> x < y
  }

  /** Steps `1..level/3` each list their locations once; a location belongs
      to one step and is listed under its coordinate. */
  ghost predicate Stepped(st: Store) {
    (forall k :: k in st.T <==> 1 <= k <= st.level / 3) &&
    (forall k :: k in st.T ==> st.T[k] != [] && NoDup(st.T[k])) &&
    (forall k :: k in st.T ==> forall h :: h in st.T[k] ==>
      h < |st.locs| && st.locs[h].coordinate in st.S && h in st.S[st.locs[h].coordinate]) &&
    forall k, k', h :: k in st.T && k' in st.T && h in st.T[k] && h in st.T[k'] ==> k == k'
  }

  /** Every coordinate lists recorded locations with that coordinate, once
      each, and at least one. */
  ghost predicate Charted(st: Store) {
    forall c :: c in st.S ==>
      st.S[c] != [] && NoDup(st.S[c]) &&
      forall h :: h in st.S[c] ==> h < |st.locs| && st.locs[h].coordinate == c && h in Recorded(st.T)
  }

  ghost predicate Shape(st: Store) {
    Layered(st) && Numbered(st) && Stepped(st) && Charted(st) && HandlesBelow(st.V, |st.locs|) && MemoFromOne(st.memo)
  }

  /** The trigraph the constructor builds, with the factorial memo `memo`. */
  function Empty(memo: seq<nat>): Store {
    Store(map[], map[], map[], map[], [], 0, 0, memo)
  }

  lemma EmptyShape(memo: seq<nat>)
    requires MemoFromOne(memo)
    ensures Shape(Empty(memo))
  {
  }
}
