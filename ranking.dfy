/** The ranking step of `LocalIRSystem.search`:
    `sorted(zip(titles, documents, scores), key=score, reverse=True)[:top_k]`.
    Python's `sorted` is stable also with `reverse=True`, so hits with equal
    scores keep their ingestion order. */
module Ranking {

  /** One `(title, content, score)` triple of the zipped results. */
  datatype Hit = Hit(title: string, content: string, score: real)

  function Min(a: int, b: int): int {
    if a <= b then a else b
  }

  /** `zip(titles, contents, scores)`: pairs up positions and stops at the
      end of the shortest input. */
  function Zip(titles: seq<string>, contents: seq<string>, scores: seq<real>): (r: seq<Hit>)
    ensures |r| == Min(|titles|, Min(|contents|, |scores|))
    ensures forall i :: 0 <= i < |r| ==> r[i] == Hit(titles[i], contents[i], scores[i])
  {
    var n := Min(|titles|, Min(|contents|, |scores|));
    seq(n, i requires 0 <= i < n => Hit(titles[i], contents[i], scores[i]))
  }

  /** Scores never increase along `s`. */
  ghost predicate SortedDesc(s: seq<Hit>) {
    forall i, j :: 0 <= i < j < |s| ==> s[i].score >= s[j].score
  }

  /** The hits of `s` whose score is `v`, in their order in `s`. */
  function WithScore(s: seq<Hit>, v: real): seq<Hit> {
    if s == [] then []
    else (if s[0].score == v then [s[0]] else []) + WithScore(s[1..], v)
  }

  /** `WithScore` keeps exactly the hits of the given score. */
  lemma {:induction false} WithScoreMembers(s: seq<Hit>, v: real)
    ensures forall x :: x in WithScore(s, v) <==> x in s && x.score == v
  {
    if s != [] {
      WithScoreMembers(s[1..], v);
      assert s == [s[0]] + s[1..];
    }
  }

  /** Places `x` before the first hit whose score is not above its own. */
  function Insert(x: Hit, s: seq<Hit>): (r: seq<Hit>)
    ensures |r| == |s| + 1
    ensures multiset(r) == multiset(s) + multiset{x}
  {
    if s == [] || x.score >= s[0].score then [x] + s
    else
      assert s == [s[0]] + s[1..];
      [s[0]] + Insert(x, s[1..])
  }

  lemma {:induction false} InsertSorted(x: Hit, s: seq<Hit>)
    requires SortedDesc(s)
    ensures SortedDesc(Insert(x, s))
  {
    if s != [] && x.score < s[0].score {
      var t := Insert(x, s[1..]);
      InsertSorted(x, s[1..]);
      forall i | 0 <= i < |t| ensures s[0].score >= t[i].score {
        assert t[i] in multiset(t);
        if t[i] != x {
          assert t[i] in multiset(s[1..]);
          var k :| 0 <= k < |s[1..]| && s[1..][k] == t[i];
          assert s[k + 1] == t[i];
        }
      }
    }
  }

  /** Stable sort by descending score (insertion sort from the back, as the
      stable counterpart of Python's `sorted(..., reverse=True)`). */
  function SortByScore(s: seq<Hit>): (r: seq<Hit>)
    ensures |r| == |s|
    ensures multiset(r) == multiset(s)
    ensures SortedDesc(r)
  {
    if s == [] then []
    else
      assert s == [s[0]] + s[1..];
      var t := SortByScore(s[1..]);
      InsertSorted(s[0], t);
      Insert(s[0], t)
  }

  lemma WithScoreCons(h: Hit, s: seq<Hit>, v: real)
    ensures WithScore([h] + s, v) == (if h.score == v then [h] else []) + WithScore(s, v)
  {
    assert ([h] + s)[0] == h && ([h] + s)[1..] == s;
  }

  lemma {:induction false} InsertWithScore(x: Hit, s: seq<Hit>, v: real)
    ensures WithScore(Insert(x, s), v) == (if x.score == v then [x] else []) + WithScore(s, v)
  {
    if s == [] || x.score >= s[0].score {
      WithScoreCons(x, s, v);
    } else {
      var t := Insert(x, s[1..]);
      InsertWithScore(x, s[1..], v);
      WithScoreCons(s[0], t, v);
      assert s == [s[0]] + s[1..];
      WithScoreCons(s[0], s[1..], v);
      if x.score == v {
        assert s[0].score != v;
      } else if s[0].score == v {
        assert WithScore(Insert(x, s), v) == [s[0]] + WithScore(s[1..], v);
      }
    }
  }

  /** Stability: for every score, the hits with that score appear in the
      sorted output in the same order as in the input. */
  lemma {:induction false} SortByScoreStable(s: seq<Hit>, v: real)
    ensures WithScore(SortByScore(s), v) == WithScore(s, v)
  {
    if s != [] {
      SortByScoreStable(s[1..], v);
      InsertWithScore(s[0], SortByScore(s[1..]), v);
    }
  }

  /** Two orderings that are both sorted by descending score and agree on the
      order within every score class are the same sequence. */
  lemma {:induction false} SortedStableUnique(t: seq<Hit>, u: seq<Hit>)
    requires SortedDesc(t) && SortedDesc(u)
    requires forall v :: WithScore(t, v) == WithScore(u, v)
    ensures t == u
    decreases |t| + |u|
  {
    if t == [] || u == [] {
      if t != [] {
        WithScoreOwn(t);
        assert false;
      } else if u != [] {
        WithScoreOwn(u);
        assert false;
      }
    } else {
      var a, b := t[0], u[0];
      if a.score >= b.score {
        SameLeader(t, u);
      } else {
        SameLeader(u, t);
      }
      assert a == b;
      forall v ensures WithScore(t[1..], v) == WithScore(u[1..], v) {
        var h := if a.score == v then [a] else [];
        assert WithScore(t, v) == h + WithScore(t[1..], v);
        assert WithScore(u, v) == h + WithScore(u[1..], v);
        assert WithScore(t[1..], v) == WithScore(t, v)[|h|..];
        assert WithScore(u[1..], v) == WithScore(u, v)[|h|..];
      }
      SortedStableUnique(t[1..], u[1..]);
    }
  }

  lemma WithScoreOwn(s: seq<Hit>)
    requires s != []
    ensures WithScore(s, s[0].score) != []
  {
  }

  lemma SameLeader(t: seq<Hit>, u: seq<Hit>)
    requires t != [] && u != []
    requires SortedDesc(u)
    requires t[0].score >= u[0].score
    requires WithScore(t, t[0].score) == WithScore(u, t[0].score)
    ensures t[0] == u[0]
  {
    var v := t[0].score;
    assert WithScore(t, v)[0] == t[0];
    var w := WithScore(u, v);
    WithScoreMembers(u, v);
    assert w[0] in u;
    var k :| 0 <= k < |u| && u[k] == w[0];
    assert u[0].score == v;
  }

  /** The sort is Python's stable descending sort: it is the one ordering
      that is sorted by descending score and keeps input order among ties. */
  lemma SortByScoreIsUnique(s: seq<Hit>, t: seq<Hit>)
    requires SortedDesc(t)
    requires forall v :: WithScore(t, v) == WithScore(s, v)
    ensures t == SortByScore(s)
  {
    forall v ensures WithScore(t, v) == WithScore(SortByScore(s), v) {
      SortByScoreStable(s, v);
    }
    SortedStableUnique(t, SortByScore(s));
  }

  lemma {:induction false} WithScorePrefix(s: seq<Hit>, n: nat, v: real)
    requires n <= |s|
    ensures WithScore(s[..n], v) <= WithScore(s, v)
  {
    if n > 0 {
      assert s[..n][1..] == s[1..][..n - 1];
      WithScorePrefix(s[1..], n - 1, v);
    }
  }

  /** The ranked results: the sorted hits cut to the first `topK`. The result
      has `min(topK, |hits|)` entries in descending score order, is drawn from
      `hits`, no hit left out scores above one kept, and within each score the
      kept hits are the earliest ones in input order. */
  function Rank(hits: seq<Hit>, topK: nat): (r: seq<Hit>)
    ensures |r| == Min(topK, |hits|)
    ensures SortedDesc(r)
    ensures multiset(r) <= multiset(hits)
    ensures forall x, i :: x in multiset(hits) - multiset(r) && 0 <= i < |r| ==> x.score <= r[i].score
    ensures forall v :: WithScore(r, v) <= WithScore(hits, v)
  {
    var s := SortByScore(hits);
    var n := Min(topK, |hits|);
    SortedPrefix(s, n);
    forall v ensures WithScore(s[..n], v) <= WithScore(hits, v) {
      WithScorePrefix(s, n, v);
      SortByScoreStable(hits, v);
    }
    s[..n]
  }

  /** A prefix of a sorted sequence is sorted, is drawn from it, and nothing
      after the cut scores above anything before it. */
  lemma SortedPrefix(s: seq<Hit>, n: nat)
    requires n <= |s| && SortedDesc(s)
    ensures SortedDesc(s[..n])
    ensures multiset(s[..n]) <= multiset(s)
    ensures forall x, i :: x in multiset(s) - multiset(s[..n]) && 0 <= i < n ==> x.score <= s[..n][i].score
  {
    var r, rest := s[..n], s[n..];
    assert s == r + rest;
    assert multiset(s) == multiset(r) + multiset(rest);
    forall x, i | x in multiset(s) - multiset(r) && 0 <= i < n ensures x.score <= r[i].score {
      assert x in rest;
      var k :| 0 <= k < |rest| && rest[k] == x;
      assert s[n + k] == x && s[i] == r[i];
    }
  }

  /** When the hits are already in descending score order, ranking keeps
      their order and only truncates. */
  lemma RankOfSorted(hits: seq<Hit>, topK: nat)
    requires SortedDesc(hits)
    ensures Rank(hits, topK) == hits[..Min(topK, |hits|)]
  {
    SortByScoreIsUnique(hits, hits);
  }

  /** When every hit has the same score (as for a query whose tokens all
      vanish, so that every document scores the same), the ranked results
      are the first `topK` hits in ingestion order. */
  lemma RankAllTied(hits: seq<Hit>, topK: nat, v: real)
    requires forall i :: 0 <= i < |hits| ==> hits[i].score == v
    ensures Rank(hits, topK) == hits[..Min(topK, |hits|)]
  {
    RankOfSorted(hits, topK);
  }
}
