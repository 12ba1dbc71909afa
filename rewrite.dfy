/** `rewriteStr(s, rules, combine)` of the model API (`lib/ModelAPI.js`):
    find every hit of every rule, make two hits neighbours when their
    character ranges do not overlap, enumerate the maximal sets of pairwise
    non-overlapping hits and rewrite the string once per set (or once per
    hit of each set). Patterns are literal strings matched without regard to
    ASCII letter case, the way the `gi` regular expression matches a pattern
    without special characters. */
module StringRewrite {
  import opened SeqUtil
  import opened Combinatorics
  import MaximalCliques

  /** `[pattern, replacement]`. */
  datatype Rule = Rule(pattern: string, replacement: string)

  /** `{ i, s, e }`: rule `i` matched the characters `s..e`. */
  datatype Hit = Hit(i: nat, s: nat, e: int)

  /** An argument that was of the right JavaScript type, or was not. */
  datatype Arg<T> = Given(v: T) | WrongType

  /** What `rewriteStr` returns or throws. With `combine` it is an array of
      strings, without it an array of groups of strings; no hit gives `[]`,
      modelled as `Strings([])`. */
  datatype Outcome = Strings(strings: seq<string>) | Groups(groups: seq<seq<string>>) | TypeError(msg: string)

  // ---- matching ----

  /** ASCII lower case. */
  function Lower(c: char): char {
    if 'A' <= c <= 'Z' then (c as int + 32) as char else c
  }

  /** `pat` occurs at position `p` of `s`, ignoring ASCII letter case. */
  predicate MatchAt(s: string, pat: string, p: nat) {
    p + |pat| <= |s| && forall k :: 0 <= k < |pat| ==> Lower(s[p + k]) == Lower(pat[k])
  }

  /** `s.matchAll(pattern)` from position `p` on: the leftmost match, then the
      search goes on behind it (one position further for the empty pattern,
      which matches everywhere, the end included). */
  function MatchesFrom(s: string, pat: string, p: nat): (r: seq<nat>)
    decreases |s| + 1 - p
  {
    if p > |s| then []
    else if MatchAt(s, pat, p) then [p] + MatchesFrom(s, pat, p + (if |pat| == 0 then 1 else |pat|))
    else MatchesFrom(s, pat, p + 1)
  }

  /** Every reported position is a match at or after `p`, and they increase. */
  lemma MatchesSound(s: string, pat: string, p: nat)
    ensures forall k :: 0 <= k < |MatchesFrom(s, pat, p)| ==>
      MatchAt(s, pat, MatchesFrom(s, pat, p)[k]) && MatchesFrom(s, pat, p)[k] >= p
    ensures Increasing(MatchesFrom(s, pat, p))
  {
    MatchesValid(s, pat, p);
    MatchesIncreasing(s, pat, p);
    var r := MatchesFrom(s, pat, p);
    forall k | 0 <= k < |r| ensures MatchAt(s, pat, r[k]) && r[k] >= p {
      assert r[k] in r;
    }
  }

  /** Every reported position is a match at or after `p`. */
  lemma {:induction false} MatchesValid(s: string, pat: string, p: nat)
    ensures forall x :: x in MatchesFrom(s, pat, p) ==> MatchAt(s, pat, x) && x >= p
    decreases |s| + 1 - p
  {
    if p <= |s| {
      if MatchAt(s, pat, p) {
        MatchesValid(s, pat, p + (if |pat| == 0 then 1 else |pat|));
      } else {
        MatchesValid(s, pat, p + 1);
      }
    }
  }

  /** The reported positions increase. */
  lemma {:induction false} MatchesIncreasing(s: string, pat: string, p: nat)
    ensures Increasing(MatchesFrom(s, pat, p))
    decreases |s| + 1 - p
  {
    if p <= |s| {
      var q := p + (if |pat| == 0 then 1 else |pat|);
      if MatchAt(s, pat, p) {
        MatchesIncreasing(s, pat, q);
        MatchesValid(s, pat, q);
        var rest := MatchesFrom(s, pat, q);
        var r := [p] + rest;
        forall a, b | 0 <= a < b < |r| ensures r[a] < r[b] {
          assert r[b] == rest[b - 1] && rest[b - 1] in rest;
          if a > 0 {
            assert r[a] == rest[a - 1];
          }
        }
      } else {
        MatchesIncreasing(s, pat, p + 1);
      }
    }
  }

  /** The hits of rule `i`. */
  function RuleHits(s: string, rules: seq<Rule>, i: nat): (r: seq<Hit>)
    requires i < |rules|
    ensures forall k :: 0 <= k < |r| ==> r[k].i == i
  {
    var ms := MatchesFrom(s, rules[i].pattern, 0);
    seq(|ms|, k requires 0 <= k < |ms| => Hit(i, ms[k], ms[k] + |rules[i].pattern| - 1))
  }

  /** The hits of the first `n` rules, in the order the loops push them. */
  function HitsUpTo(s: string, rules: seq<Rule>, n: nat): seq<Hit>
    requires n <= |rules|
  {
    if n == 0 then [] else HitsUpTo(s, rules, n - 1) + RuleHits(s, rules, n - 1)
  }

  /** A hit of `rules` at a real match in `s`, `e` its last character. */
  predicate ValidHit(s: string, rules: seq<Rule>, h: Hit) {
    h.i < |rules| && h.e == h.s + |rules[h.i].pattern| - 1 && MatchAt(s, rules[h.i].pattern, h.s)
  }

  /** Every hit is a real match and no hit is found twice. */
  lemma {:induction false} HitsValid(s: string, rules: seq<Rule>, n: nat)
    requires n <= |rules|
    ensures forall k :: 0 <= k < |HitsUpTo(s, rules, n)| ==> ValidHit(s, rules, HitsUpTo(s, rules, n)[k]) && HitsUpTo(s, rules, n)[k].i < n
    ensures NoDup(HitsUpTo(s, rules, n))
  {
    if n > 0 {
      HitsValid(s, rules, n - 1);
      MatchesSound(s, rules[n - 1].pattern, 0);
      var A := HitsUpTo(s, rules, n - 1);
      var B := RuleHits(s, rules, n - 1);
      var r := A + B;
      forall k | 0 <= k < |r| ensures ValidHit(s, rules, r[k]) && r[k].i < n {
        if k >= |A| {
          assert r[k] == B[k - |A|];
        }
      }
      forall x, y | 0 <= x < y < |r| ensures r[x] != r[y] {
        if y < |A| {
          assert r[x] == A[x] && r[y] == A[y];
        } else if x >= |A| {
          assert r[x] == B[x - |A|] && r[y] == B[y - |A|];
        } else {
          assert r[x].i < n - 1 && r[y] == B[y - |A|];
        }
      }
    }
  }

  /** The two loops of `rewriteStr` that collect the hits. */
  method FindHits(s: string, rules: seq<Rule>) returns (hits: seq<Hit>)
    ensures hits == HitsUpTo(s, rules, |rules|)
    ensures NoDup(hits) && forall k :: 0 <= k < |hits| ==> ValidHit(s, rules, hits[k])
  {
    hits := [];
    var i := 0;
    while i < |rules|
      invariant 0 <= i <= |rules|
      invariant hits == HitsUpTo(s, rules, i)
    {
      var pat := rules[i].pattern;
      var ms := MatchesFrom(s, pat, 0);
      var k := 0;
      while k < |ms|
        invariant 0 <= k <= |ms|
        invariant hits == HitsUpTo(s, rules, i) + RuleHits(s, rules, i)[..k]
      {
        assert RuleHits(s, rules, i)[..k + 1] == RuleHits(s, rules, i)[..k] + [Hit(i, ms[k], ms[k] + |pat| - 1)];
        hits := hits + [Hit(i, ms[k], ms[k] + |pat| - 1)];
        k := k + 1;
      }
      assert RuleHits(s, rules, i)[..k] == RuleHits(s, rules, i);
      i := i + 1;
    }
    HitsValid(s, rules, |rules|);
  }

  // ---- neighbourhoods ----

  /** `c[0].e < c[1].s || c[1].e < c[0].s`: the two ranges do not overlap. */
  predicate Disjoint(a: Hit, b: Hit) {
    a.e < b.s || b.e < a.s
  }

  /** The pair of positions `{p, q}` is among `ps`. */
  predicate PairSeen(ps: seq<seq<nat>>, p: nat, q: nat) {
    [p, q] in ps || [q, p] in ps
  }

  /** The neighbour lists after the pairs `ps`. */
  ghost predicate NeighboursAfter(hits: seq<Hit>, N: map<Hit, seq<Hit>>, ps: seq<seq<nat>>) {
    (forall x :: x in hits <==> x in N) &&
    (forall p, q :: 0 <= p < |hits| && 0 <= q < |hits| ==> HitPairListed(hits, N, ps, p, q))
  }

  /** The list of `hits[p]` holds `hits[q]` exactly when the pair has been
      visited and the two do not overlap. */
  ghost predicate HitPairListed(hits: seq<Hit>, N: map<Hit, seq<Hit>>, ps: seq<seq<nat>>, p: nat, q: nat)
    requires p < |hits| && q < |hits|
  {
    hits[p] in N && (hits[q] in N[hits[p]] <==> PairSeen(ps, p, q) && Disjoint(hits[p], hits[q]))
  }

  /** The neighbour relation `rewriteStr` builds over its hits. */
  ghost predicate DisjointLists(hits: seq<Hit>, N: map<Hit, seq<Hit>>) {
    (forall x :: x in hits <==> x in N) &&
    (forall x, y :: x in hits && y in hits ==> (y in N[x] <==> x != y && Disjoint(x, y)))
  }

  /** `for (let c of this.comb(hits, 2))`: two hits become neighbours exactly
      when they are different hits whose ranges do not overlap. */
  method DisjointNeighbours(hits: seq<Hit>) returns (N: map<Hit, seq<Hit>>)
    requires NoDup(hits)
    ensures DisjointLists(hits, N)
  {
    N := map x | x in hits :: [];
    var cs := Comb(|hits|, 2);
    CombShape(|hits|, 0, 2);
    var k := 0;
    while k < |cs|
      invariant 0 <= k <= |cs|
      invariant NeighboursAfter(hits, N, cs[..k])
    {
      assert cs[k] in cs;
      var a, b := cs[k][0], cs[k][1];
      if hits[a].e < hits[b].s || hits[b].e < hits[a].s {
        PairAdded(hits, N, cs, k);
        N := AddPair(N, hits[a], hits[b]);
      } else {
        PairSkipped(hits, N, cs, k);
      }
      k := k + 1;
    }
    assert cs[..k] == cs;
    AllPairsSeen(hits, N, cs);
  }

  lemma PairAdded(hits: seq<Hit>, N: map<Hit, seq<Hit>>, cs: seq<seq<nat>>, k: nat)
    requires NoDup(hits) && k < |cs| && |cs[k]| == 2 && cs[k][0] < cs[k][1] < |hits|
    requires NeighboursAfter(hits, N, cs[..k]) && Disjoint(hits[cs[k][0]], hits[cs[k][1]])
    ensures NeighboursAfter(hits, AddPair(N, hits[cs[k][0]], hits[cs[k][1]]), cs[..k + 1])
  {
    var a, b := cs[k][0], cs[k][1];
    var ps0, ps := cs[..k], cs[..k + 1];
    assert cs[k] == [a, b];
    assert ps == ps0 + [[a, b]];
    var N2 := AddPair(N, hits[a], hits[b]);
    forall p: nat, q: nat | p < |hits| && q < |hits|
      ensures HitPairListed(hits, N2, ps, p, q)
    {
      HitPairStep(hits, N, ps0, a, b, p, q);
    }
  }

  /** Recording the non-overlapping pair `(a, b)` keeps one entry of the
      invariant. */
  lemma HitPairStep(hits: seq<Hit>, N: map<Hit, seq<Hit>>, ps0: seq<seq<nat>>, a: nat, b: nat, p: nat, q: nat)
    requires NoDup(hits) && a < b < |hits| && p < |hits| && q < |hits|
    requires hits[a] in N && hits[b] in N && HitPairListed(hits, N, ps0, p, q)
    requires Disjoint(hits[a], hits[b])
    ensures HitPairListed(hits, AddPair(N, hits[a], hits[b]), ps0 + [[a, b]], p, q)
  {
    var N2 := AddPair(N, hits[a], hits[b]);
    assert hits[p] == hits[a] <==> p == a;
    assert hits[p] == hits[b] <==> p == b;
    assert hits[q] == hits[a] <==> q == a;
    assert hits[q] == hits[b] <==> q == b;
    assert PairSeen(ps0 + [[a, b]], p, q) <==> PairSeen(ps0, p, q) || (p == a && q == b) || (p == b && q == a);
    if p == a {
      assert N2[hits[p]] == N[hits[p]] + [hits[b]];
    } else if p == b {
      assert N2[hits[p]] == N[hits[p]] + [hits[a]];
    } else {
      assert N2[hits[p]] == N[hits[p]];
    }
  }

  lemma PairSkipped(hits: seq<Hit>, N: map<Hit, seq<Hit>>, cs: seq<seq<nat>>, k: nat)
    requires k < |cs| && |cs[k]| == 2 && cs[k][0] < cs[k][1] < |hits|
    requires NeighboursAfter(hits, N, cs[..k]) && !Disjoint(hits[cs[k][0]], hits[cs[k][1]])
    ensures NeighboursAfter(hits, N, cs[..k + 1])
  {
    var a, b := cs[k][0], cs[k][1];
    var ps0, ps := cs[..k], cs[..k + 1];
    assert cs[k] == [a, b];
    assert ps == ps0 + [[a, b]];
    forall p: nat, q: nat | p < |hits| && q < |hits|
      ensures HitPairListed(hits, N, ps, p, q)
    {
      assert HitPairListed(hits, N, ps0, p, q);
      assert PairSeen(ps, p, q) <==> PairSeen(ps0, p, q) || (p == a && q == b) || (p == b && q == a);
    }
  }

  /** `comb(hits, 2)` visits every pair of different positions. */
  lemma AllPairsSeen(hits: seq<Hit>, N: map<Hit, seq<Hit>>, cs: seq<seq<nat>>)
    requires NoDup(hits) && cs == Comb(|hits|, 2) && NeighboursAfter(hits, N, cs)
    ensures DisjointLists(hits, N)
  {
    forall x, y | x in hits && y in hits ensures y in N[x] <==> x != y && Disjoint(x, y) {
      var p :| 0 <= p < |hits| && hits[p] == x;
      var q :| 0 <= q < |hits| && hits[q] == y;
      assert HitPairListed(hits, N, cs, p, q);
      PairSeenIff(|hits|, cs, p, q);
    }
  }

  /** A pair of positions is among `comb(hits, 2)` exactly when they differ. */
  lemma PairSeenIff(n: nat, cs: seq<seq<nat>>, p: nat, q: nat)
    requires cs == Comb(n, 2) && p < n && q < n
    ensures PairSeen(cs, p, q) <==> p != q
  {
    CombShape(n, 0, 2);
    if p < q {
      CombComplete(n, 0, 2, [p, q]);
    } else if q < p {
      CombComplete(n, 0, 2, [q, p]);
    } else {
      forall c | c in cs ensures c != [p, q] {
        assert CombEntry(c, n, 0, 2);
        assert c[0] < c[1];
      }
    }
  }

  /** Disjointness lists are a relation the clique enumerator accepts. */
  lemma DisjointListsWellFormed(hits: seq<Hit>, N: map<Hit, seq<Hit>>)
    requires DisjointLists(hits, N)
    ensures MaximalCliques.WellFormed(Elems(hits), N)
  {
  }

  // ---- rewriting ----

  /** `y.splice(start, count, ...items)`, which clamps `start` and `count` to
      the string. */
  function Splice(y: string, start: nat, count: nat, items: string): (r: string) {
    var st := if start > |y| then |y| else start;
    var en := if st + count > |y| then |y| else st + count;
    y[..st] + items + y[en..]
  }

  /** The splice count `x.e - x.s + 1` of a hit, clamped at 0 like `splice`
      clamps a negative count. */
  function Count(h: Hit): nat {
    if h.e - h.s + 1 < 0 then 0 else h.e - h.s + 1
  }

  /** Every hit names a rule. */
  predicate RulesKnown(rules: seq<Rule>, hs: seq<Hit>) {
    forall k :: 0 <= k < |hs| ==> hs[k].i < |rules|
  }

  /** `mc.forEach(x => y.splice(x.s, x.e - x.s + 1, ...rules[x.i][1]))` on one
      copy of `y`: every splice uses the positions of the original string,
      whatever the splices before it did to the length. */
  function SpliceInOrder(y: string, rules: seq<Rule>, hs: seq<Hit>): string
    requires RulesKnown(rules, hs)
    decreases |hs|
  {
    if hs == [] then y
    else SpliceInOrder(Splice(y, hs[0].s, Count(hs[0]), rules[hs[0].i].replacement), rules, hs[1..])
  }

  /** The combining step as written. */
  function CombineAsWritten(s: string, rules: seq<Rule>, mc: seq<Hit>): string
    requires RulesKnown(rules, mc)
  {
    SpliceInOrder(s, rules, mc)
  }

  /** The hit ends inside a string of length `n` and its range has the
      length of its pattern. */
  predicate Fits(rules: seq<Rule>, n: nat, h: Hit) {
    h.i < |rules| && h.e == h.s + |rules[h.i].pattern| - 1 && h.s + |rules[h.i].pattern| <= n
  }

  /** Every hit fits a string of length `n`. */
  predicate AllFit(rules: seq<Rule>, n: nat, hs: seq<Hit>) {
    forall k :: 0 <= k < |hs| ==> Fits(rules, n, hs[k])
  }

  /** Hits in order from left to right: each ends before the next starts. */
  predicate LeftToRight(hs: seq<Hit>) {
    forall a, b :: 0 <= a < b < |hs| ==> hs[a].e < hs[b].s
  }

  /** Hits in order from right to left. */
  predicate RightToLeft(hs: seq<Hit>) {
    forall a, b :: 0 <= a < b < |hs| ==> hs[b].e < hs[a].s
  }

  /** A string of length `m >= n` fits whatever fits one of length `n`. */
  lemma AllFitWider(rules: seq<Rule>, n: nat, m: nat, hs: seq<Hit>)
    requires AllFit(rules, n, hs) && n <= m
    ensures AllFit(rules, m, hs)
  {
  }

  /** Taking off the last of left-to-right hits leaves hits that end before
      it starts. */
  lemma InitFits(rules: seq<Rule>, n: nat, hs: seq<Hit>)
    requires hs != [] && LeftToRight(hs) && AllFit(rules, n, hs)
    ensures Fits(rules, n, hs[|hs| - 1])
    ensures LeftToRight(hs[..|hs| - 1]) && AllFit(rules, hs[|hs| - 1].s, hs[..|hs| - 1])
  {
    var init := hs[..|hs| - 1];
    forall k | 0 <= k < |init| ensures Fits(rules, hs[|hs| - 1].s, init[k]) {
      assert init[k] == hs[k];
    }
  }

  /** The intended result: the ranges of the original string named by the
      hits, left to right, replaced by their rules' replacements. */
  function Compose(s: string, rules: seq<Rule>, hs: seq<Hit>): string
    requires LeftToRight(hs) && AllFit(rules, |s|, hs)
    decreases |hs|
  {
    if hs == [] then s
    else
      InitFits(rules, |s|, hs);
      var h := hs[|hs| - 1];
      Compose(s[..h.s], rules, hs[..|hs| - 1]) + rules[h.i].replacement + s[h.e + 1..]
  }

  /** The text after the last hit is copied through. */
  lemma {:induction false} ComposeSuffix(s: string, rules: seq<Rule>, hs: seq<Hit>, b: nat)
    requires LeftToRight(hs) && b <= |s| && AllFit(rules, b, hs)
    ensures AllFit(rules, |s|, hs)
    ensures Compose(s, rules, hs) == Compose(s[..b], rules, hs) + s[b..]
  {
    AllFitWider(rules, b, |s|, hs);
    if hs != [] {
      InitFits(rules, b, hs);
      var h, init := hs[|hs| - 1], hs[..|hs| - 1];
      var r := rules[h.i].replacement;
      assert s[..b][..h.s] == s[..h.s];
      assert s[..b][h.e + 1..] + s[b..] == s[h.e + 1..];
      calc {
        Compose(s[..b], rules, hs) + s[b..];
        Compose(s[..h.s], rules, init) + r + s[..b][h.e + 1..] + s[b..];
        Compose(s[..h.s], rules, init) + r + (s[..b][h.e + 1..] + s[b..]);
        Compose(s, rules, hs);
      }
    }
  }

  /** The order of a sequence reversed. */
  function Reverse<T>(t: seq<T>): (r: seq<T>)
    ensures |r| == |t| && forall k :: 0 <= k < |t| ==> r[k] == t[|t| - 1 - k]
  {
    if t == [] then [] else Reverse(t[1..]) + [t[0]]
  }

  /** Right-to-left hits reversed run left to right, and fit where they did. */
  lemma ReverseOrder(rules: seq<Rule>, n: nat, t: seq<Hit>)
    requires RightToLeft(t) && AllFit(rules, n, t)
    ensures LeftToRight(Reverse(t)) && AllFit(rules, n, Reverse(t))
  {
    var r := Reverse(t);
    forall a, b | 0 <= a < b < |r| ensures r[a].e < r[b].s {
      assert r[a] == t[|t| - 1 - a] && r[b] == t[|t| - 1 - b];
    }
    forall k | 0 <= k < |r| ensures Fits(rules, n, r[k]) {
      assert r[k] == t[|t| - 1 - k];
    }
  }

  /** The first hit of a right-to-left list, spliced in, leaves the rest to
      be spliced into the text before it. */
  lemma FirstSplice(y: string, rules: seq<Rule>, t: seq<Hit>)
    requires t != [] && RightToLeft(t) && AllFit(rules, |y|, t)
    ensures Fits(rules, |y|, t[0])
    ensures RightToLeft(t[1..]) && AllFit(rules, t[0].s, t[1..])
    ensures Splice(y, t[0].s, Count(t[0]), rules[t[0].i].replacement)
      == y[..t[0].s] + rules[t[0].i].replacement + y[t[0].e + 1..]
  {
    var rest := t[1..];
    forall k | 0 <= k < |rest| ensures Fits(rules, t[0].s, rest[k]) {
      assert rest[k] == t[k + 1];
    }
  }

  /** Splicing hits from right to left gives the intended result. */
  lemma {:induction false} RightToLeftComposes(y: string, rules: seq<Rule>, t: seq<Hit>)
    requires RightToLeft(t) && AllFit(rules, |y|, t)
    ensures RulesKnown(rules, t)
    ensures LeftToRight(Reverse(t)) && AllFit(rules, |y|, Reverse(t))
    ensures SpliceInOrder(y, rules, t) == Compose(y, rules, Reverse(t))
    decreases |t|
  {
    ReverseOrder(rules, |y|, t);
    if t != [] {
      FirstSplice(y, rules, t);
      SpliceFirst(y, rules, t);
      var h, rest := t[0], t[1..];
      var y1 := y[..h.s] + rules[h.i].replacement + y[h.e + 1..];
      AllFitWider(rules, h.s, |y1|, rest);
      RightToLeftComposes(y1, rules, rest);
      ComposeAfterSplice(y, rules, t, y1);
    }
  }

  /** Composing the other hits into the text spliced at the first one is
      composing all of them into the original text. */
  lemma ComposeAfterSplice(y: string, rules: seq<Rule>, t: seq<Hit>, y1: string)
    requires t != [] && RightToLeft(t) && AllFit(rules, |y|, t) && Fits(rules, |y|, t[0])
    requires y1 == y[..t[0].s] + rules[t[0].i].replacement + y[t[0].e + 1..]
    requires LeftToRight(Reverse(t[1..])) && AllFit(rules, |y1|, Reverse(t[1..]))
    ensures LeftToRight(Reverse(t)) && AllFit(rules, |y|, Reverse(t))
    ensures Compose(y1, rules, Reverse(t[1..])) == Compose(y, rules, Reverse(t))
  {
    ReverseOrder(rules, |y|, t);
    FirstSplice(y, rules, t);
    var h, rest := t[0], t[1..];
    var r := rules[h.i].replacement;
    ReverseOrder(rules, h.s, rest);
    ComposeSuffix(y1, rules, Reverse(rest), h.s);
    Pieces(y[..h.s], r, y[h.e + 1..]);
    ComposeLast(y, rules, Reverse(rest), h);
    calc {
      Compose(y1, rules, Reverse(rest));
      Compose(y1[..h.s], rules, Reverse(rest)) + y1[h.s..];
      Compose(y[..h.s], rules, Reverse(rest)) + (r + y[h.e + 1..]);
      Compose(y, rules, Reverse(t));
    }
  }

  /** `SpliceInOrder` splices the first hit, then the others. */
  lemma SpliceFirst(y: string, rules: seq<Rule>, t: seq<Hit>)
    requires t != [] && RulesKnown(rules, t)
    ensures RulesKnown(rules, t[1..])
    ensures SpliceInOrder(y, rules, t) == SpliceInOrder(Splice(y, t[0].s, Count(t[0]), rules[t[0].i].replacement), rules, t[1..])
  {
  }

  /** The two ends of `a + r + b`. */
  lemma Pieces<T>(a: seq<T>, r: seq<T>, b: seq<T>)
    ensures (a + r + b)[..|a|] == a && (a + r + b)[|a|..] == r + b
  {
  }

  /** `Compose` takes off the last hit. */
  lemma ComposeLast(y: string, rules: seq<Rule>, init: seq<Hit>, h: Hit)
    requires LeftToRight(init + [h]) && AllFit(rules, |y|, init + [h])
    ensures Fits(rules, |y|, h) && LeftToRight(init) && AllFit(rules, h.s, init)
    ensures Compose(y, rules, init + [h]) == Compose(y[..h.s], rules, init) + (rules[h.i].replacement + y[h.e + 1..])
  {
    var hs := init + [h];
    InitFits(rules, |y|, hs);
    assert hs[..|hs| - 1] == init && hs[|hs| - 1] == h;
  }

  /** Every two different hits among `hs` do not overlap. */
  predicate PairwiseDisjoint(hs: seq<Hit>) {
    forall x, y :: x in hs && y in hs && x != y ==> Disjoint(x, y)
  }

  /** The splicing order that fixes the combining step: largest `s + e`
      first. */
  function RightFirst(mc: seq<Hit>): (r: seq<Hit>)
    ensures multiset(r) == multiset(mc)
  {
    SortDesc(mc, (h: Hit) => h.s + h.e)
  }

  /** For pairwise non-overlapping hits, largest `s + e` first is right to
      left: if `a` came first but ended at or after the start of `b`, then
      `a` would end before `b` starts, and `a.s + a.e < b.s + b.e`. */
  lemma RightFirstIsRightToLeft(rules: seq<Rule>, n: nat, mc: seq<Hit>)
    requires AllFit(rules, n, mc) && PairwiseDisjoint(mc) && NoDup(mc)
    ensures AllFit(rules, n, RightFirst(mc)) && RightToLeft(RightFirst(mc))
  {
    var t := RightFirst(mc);
    PermutationElems(mc, t);
    SameHits(rules, n, mc, t);
    KeysDescend(t);
    forall a, b | 0 <= a < b < |t| ensures t[b].e < t[a].s {
      assert t[a] in mc && t[b] in mc && t[a] != t[b];
      assert Disjoint(t[a], t[b]);
    }
  }

  /** The keys of a sequence sorted by `s + e` descend. */
  lemma KeysDescend(t: seq<Hit>)
    requires SortedDesc(t, (h: Hit) => h.s + h.e)
    ensures forall a, b :: 0 <= a < b < |t| ==> t[a].s + t[a].e >= t[b].s + t[b].e
  {
    forall a, b | 0 <= a < b < |t| ensures t[a].s + t[a].e >= t[b].s + t[b].e {
      var key := (h: Hit) => h.s + h.e;
      assert key(t[a]) >= key(t[b]);
    }
  }

  /** A rearrangement of fitting, pairwise non-overlapping hits is one too. */
  lemma SameHits(rules: seq<Rule>, n: nat, mc: seq<Hit>, t: seq<Hit>)
    requires AllFit(rules, n, mc) && PairwiseDisjoint(mc) && Elems(mc) == Elems(t)
    ensures AllFit(rules, n, t) && PairwiseDisjoint(t)
    ensures forall k :: 0 <= k < |t| ==> t[k] in mc
  {
    forall k | 0 <= k < |t| ensures t[k] in mc && Fits(rules, n, t[k]) {
      assert t[k] in Elems(t);
      var j :| 0 <= j < |mc| && mc[j] == t[k];
    }
  }

  /** The corrected combining step. */
  function CombineCorrected(s: string, rules: seq<Rule>, mc: seq<Hit>): (r: string)
    requires RulesKnown(rules, mc)
  {
    var t := RightFirst(mc);
    assert RulesKnown(rules, t) by {
      forall k | 0 <= k < |t| ensures t[k].i < |rules| {
        assert t[k] in multiset(mc);
        var j :| 0 <= j < |mc| && mc[j] == t[k];
      }
    }
    SpliceInOrder(s, rules, t)
  }

  /** The corrected step replaces every range of the original string, for
      any set of pairwise non-overlapping hits in any order. */
  lemma CombineCorrectedComposes(s: string, rules: seq<Rule>, mc: seq<Hit>)
    requires AllFit(rules, |s|, mc) && PairwiseDisjoint(mc) && NoDup(mc)
    ensures RulesKnown(rules, mc)
    ensures LeftToRight(Reverse(RightFirst(mc))) && AllFit(rules, |s|, Reverse(RightFirst(mc)))
    ensures CombineCorrected(s, rules, mc) == Compose(s, rules, Reverse(RightFirst(mc)))
  {
    RightFirstIsRightToLeft(rules, |s|, mc);
    RightToLeftComposes(s, rules, RightFirst(mc));
  }

  /** Both hits of "ab" under the rules a → xx and b → y. */
  const ShiftRules: seq<Rule> := [Rule("a", "xx"), Rule("b", "y")]
  const HitA: Hit := Hit(0, 0, 0)
  const HitB: Hit := Hit(1, 1, 1)

  lemma SpliceAFirst()
    ensures CombineAsWritten("ab", ShiftRules, [HitA, HitB]) == "xyb"
  {
    assert Splice("ab", 0, 1, "xx") == "xxb";
    assert Splice("xxb", 1, 1, "y") == "xyb";
    assert [HitA, HitB][1..] == [HitB] && [HitB][1..] == [];
    calc {
      SpliceInOrder("ab", ShiftRules, [HitA, HitB]);
      SpliceInOrder("xxb", ShiftRules, [HitB]);
      SpliceInOrder("xyb", ShiftRules, []);
    }
  }

  lemma SpliceBFirst()
    ensures CombineAsWritten("ab", ShiftRules, [HitB, HitA]) == "xxy"
  {
    assert Splice("ab", 1, 1, "y") == "ay";
    assert Splice("ay", 0, 1, "xx") == "xxy";
    assert [HitB, HitA][1..] == [HitA] && [HitA][1..] == [];
    calc {
      SpliceInOrder("ab", ShiftRules, [HitB, HitA]);
      SpliceInOrder("ay", ShiftRules, [HitA]);
      SpliceInOrder("xxy", ShiftRules, []);
    }
  }

  lemma RightFirstOfAB()
    ensures RightFirst([HitA, HitB]) == [HitB, HitA]
    ensures RightFirst([HitB, HitA]) == [HitB, HitA]
  {
    assert SortDesc([HitB], (h: Hit) => h.s + h.e) == [HitB];
    assert SortDesc([HitA], (h: Hit) => h.s + h.e) == [HitA];
  }

  /** Finding: splicing in clique order shifts the later ranges. The clique
      of both hits of "ab", in the order the loops found them, gives "xyb";
      the same clique in the other order gives "xxy", the intended result,
      which the corrected step gives in both orders. */
  lemma CombineAsWrittenShifts()
    ensures CombineAsWritten("ab", ShiftRules, [HitA, HitB]) == "xyb"
    ensures CombineAsWritten("ab", ShiftRules, [HitB, HitA]) == "xxy"
    ensures CombineCorrected("ab", ShiftRules, [HitA, HitB]) == "xxy"
    ensures CombineCorrected("ab", ShiftRules, [HitB, HitA]) == "xxy"
  {
    SpliceAFirst();
    SpliceBFirst();
    RightFirstOfAB();
  }

  /** One rewritten string per hit of a group (`combine` false). */
  function GroupStrings(s: string, rules: seq<Rule>, mc: seq<Hit>): (r: seq<string>)
    requires RulesKnown(rules, mc)
    ensures |r| == |mc|
  {
    seq(|mc|, k requires 0 <= k < |mc| => Splice(s, mc[k].s, Count(mc[k]), rules[mc[k].i].replacement))
  }

  /** Each of them replaces its one range of the original string. */
  lemma GroupStringsCompose(s: string, rules: seq<Rule>, mc: seq<Hit>)
    requires AllFit(rules, |s|, mc)
    ensures RulesKnown(rules, mc)
    ensures forall k :: 0 <= k < |mc| ==> LeftToRight([mc[k]]) && AllFit(rules, |s|, [mc[k]])
    ensures forall k :: 0 <= k < |mc| ==> GroupStrings(s, rules, mc)[k] == Compose(s, rules, [mc[k]])
  {
    forall k | 0 <= k < |mc| ensures LeftToRight([mc[k]]) && AllFit(rules, |s|, [mc[k]]) &&
      GroupStrings(s, rules, mc)[k] == Compose(s, rules, [mc[k]])
    {
      var h := mc[k];
      assert [h][..0] == [];
      assert Fits(rules, |s|, h);
    }
  }

  // ---- the groups ----

  /** A set of pairwise non-overlapping hits that no other hit can join. */
  ghost predicate MaximalDisjoint(hits: seq<Hit>, C: set<Hit>) {
    C <= Elems(hits) &&
    (forall x, y :: x in C && y in C && x != y ==> Disjoint(x, y)) &&
    (forall w :: w in hits && w !in C ==> exists c :: c in C && (c == w || !Disjoint(w, c)))
  }

  lemma MaximalAgree(hits: seq<Hit>, N: map<Hit, seq<Hit>>, C: set<Hit>)
    requires DisjointLists(hits, N)
    ensures MaximalCliques.IsMaximalClique(Elems(hits), N, C) <==> MaximalDisjoint(hits, C)
  {
  }

  /** The groups reported for `hits`: every group is a maximal set of
      pairwise non-overlapping hits without repeats, every such set is
      reported, and none twice. */
  ghost predicate ReportsMaximalDisjoint(hits: seq<Hit>, mcs: seq<seq<Hit>>) {
    (forall k :: 0 <= k < |mcs| ==> NoDup(mcs[k]) && MaximalDisjoint(hits, Elems(mcs[k]))) &&
    (forall C :: MaximalDisjoint(hits, C) ==> exists k :: 0 <= k < |mcs| && Elems(mcs[k]) == C) &&
    (forall k, k' :: 0 <= k < k' < |mcs| ==> Elems(mcs[k]) != Elems(mcs[k']))
  }

  /** The hits sorted by their number of neighbours, then the stack
      enumeration of `BronKerbosch(V, N)`. */
  method DisjointCliques(hits: seq<Hit>) returns (mcs: seq<seq<Hit>>)
    requires NoDup(hits)
    ensures ReportsMaximalDisjoint(hits, mcs)
  {
    var N := DisjointNeighbours(hits);
    var sorted := SortDesc(hits, x => if x in N then |N[x]| else 0);
    PermutationElems(hits, sorted);
    DisjointListsWellFormed(hits, N);
    mcs := MaximalCliques.BronKerbosch(sorted, N);
    forall C ensures MaximalCliques.IsMaximalClique(Elems(hits), N, C) <==> MaximalDisjoint(hits, C) {
      MaximalAgree(hits, N, C);
    }
  }

  /** A reported group is made of real hits that do not overlap. */
  lemma GroupFits(s: string, rules: seq<Rule>, hits: seq<Hit>, mc: seq<Hit>)
    requires forall k :: 0 <= k < |hits| ==> ValidHit(s, rules, hits[k])
    requires NoDup(mc) && MaximalDisjoint(hits, Elems(mc))
    ensures AllFit(rules, |s|, mc) && PairwiseDisjoint(mc) && RulesKnown(rules, mc)
  {
    forall k | 0 <= k < |mc| ensures Fits(rules, |s|, mc[k]) {
      assert mc[k] in Elems(mc);
      var j :| 0 <= j < |hits| && hits[j] == mc[k];
      assert ValidHit(s, rules, hits[j]);
    }
  }

  /** What `rewriteStr` answers for a string and rules of the right types. */
  ghost predicate RewriteResult(str: string, rs: seq<Rule>, combine: bool, out: Outcome, mcs: seq<seq<Hit>>) {
    var hits := HitsUpTo(str, rs, |rs|);
    (hits == [] ==> out == Strings([]) && mcs == []) &&
    (hits != [] ==>
      ReportsMaximalDisjoint(hits, mcs) &&
      (forall k :: 0 <= k < |mcs| ==> AllFit(rs, |str|, mcs[k]) && PairwiseDisjoint(mcs[k])) &&
      (combine ==> (out.Strings? && |out.strings| == |mcs| &&
        (forall k :: 0 <= k < |mcs| ==> RulesKnown(rs, mcs[k]) && out.strings[k] == CombineCorrected(str, rs, mcs[k])))) &&
      (!combine ==> (out.Groups? && |out.groups| == |mcs| &&
        (forall k :: 0 <= k < |mcs| ==> RulesKnown(rs, mcs[k]) && out.groups[k] == GroupStrings(str, rs, mcs[k])))))
  }

  /** `rewriteStr(s, rules, combine)`, which also returns the groups of
      hits it rewrote with. */
  method RewriteStr(s: Arg<string>, rules: Arg<seq<Rule>>, combine: bool) returns (out: Outcome, mcs: seq<seq<Hit>>)
    ensures s.WrongType? ==> out == TypeError("Not a string.")
    ensures s.Given? && rules.WrongType? ==> out == TypeError("Not an array of rules.")
    ensures s.Given? && rules.Given? ==> RewriteResult(s.v, rules.v, combine, out, mcs)
  {
    if s.WrongType? {
      return TypeError("Not a string."), [];
    }
    if rules.WrongType? {
      return TypeError("Not an array of rules."), [];
    }
    var str, rs := s.v, rules.v;
    var hits := FindHits(str, rs);
    if hits == [] {
      return Strings([]), [];
    }
    mcs := DisjointCliques(hits);
    forall k | 0 <= k < |mcs| ensures AllFit(rs, |str|, mcs[k]) && PairwiseDisjoint(mcs[k]) && RulesKnown(rs, mcs[k]) {
      GroupFits(str, rs, hits, mcs[k]);
    }
    if combine {
      var strs := [];
      var k := 0;
      while k < |mcs|
        invariant 0 <= k <= |mcs| && |strs| == k
        invariant forall j :: 0 <= j < k ==> strs[j] == CombineCorrected(str, rs, mcs[j])
      {
        strs := strs + [CombineCorrected(str, rs, mcs[k])];
        k := k + 1;
      }
      out := Strings(strs);
    } else {
      var groups := [];
      var k := 0;
      while k < |mcs|
        invariant 0 <= k <= |mcs| && |groups| == k
        invariant forall j :: 0 <= j < k ==> groups[j] == GroupStrings(str, rs, mcs[j])
      {
        groups := groups + [GroupStrings(str, rs, mcs[k])];
        k := k + 1;
      }
      out := Groups(groups);
    }
  }
}
