/** Reciprocal rank fusion of two ranked lists, as the retriever does it and as the file search does it. */
module RankFusion {
  import opened Basics

  const K: nat := 60

  type Id = string

  /** What the row at `rank` contributes. */
  function Share(rank: nat): (r: real)
    ensures r > 0.0
  {
    1.0 / (K + rank + 1) as real
  }

  lemma ShareFalls(a: nat, b: nat)
    requires a < b
    ensures Share(b) < Share(a)
  {
    var x, y := (K + a + 1) as real, (K + b + 1) as real;
    Reciprocals(x, y);
  }

  lemma Reciprocals(x: real, y: real)
    requires 0.0 < x < y
    ensures 1.0 / y < 1.0 / x
  {
    assert (1.0 / x) * x == 1.0 && (1.0 / y) * y == 1.0;
  }

  predicate NoRepeats(rows: seq<Id>)
  {
    forall i, j | 0 <= i < j < |rows| :: rows[i] != rows[j]
  }

  // ---- scores ----

  /** The retriever keeps, for each list, the share of an id's last row. */
  function Part(rows: seq<Id>, id: Id, n: nat): real
    requires n <= |rows|
  {
    if n == 0 then 0.0 else if rows[n - 1] == id then Share(n - 1) else Part(rows, id, n - 1)
  }

  function Score(dense: seq<Id>, sparse: seq<Id>, id: Id): real
  {
    Part(dense, id, |dense|) + Part(sparse, id, |sparse|)
  }

  /** The file search adds up the shares of all its rows. */
  function Sum(rows: seq<Id>, id: Id, n: nat): real
    requires n <= |rows|
  {
    if n == 0 then 0.0 else Sum(rows, id, n - 1) + if rows[n - 1] == id then Share(n - 1) else 0.0
  }

  lemma {:induction false} Elsewhere(rows: seq<Id>, id: Id, n: nat)
    requires n <= |rows| && forall k | 0 <= k < n :: rows[k] != id
    ensures Sum(rows, id, n) == 0.0 && Part(rows, id, n) == 0.0
  {
    if n > 0 {
      Elsewhere(rows, id, n - 1);
    }
  }

  /** Without duplicates the two implementations give every id the same score. */
  lemma {:induction false} SameScore(rows: seq<Id>, id: Id, n: nat)
    requires NoRepeats(rows) && n <= |rows|
    ensures Sum(rows, id, n) == Part(rows, id, n)
  {
    if n > 0 {
      if rows[n - 1] == id {
        Elsewhere(rows, id, n - 1);
      } else {
        SameScore(rows, id, n - 1);
      }
    }
  }

  lemma {:induction false} PartOfRow(rows: seq<Id>, i: nat, n: nat)
    requires NoRepeats(rows) && i < n <= |rows|
    ensures Part(rows, rows[i], n) == Share(i)
  {
    if i < n - 1 {
      PartOfRow(rows, i, n - 1);
    }
  }

  /** Row `i` is the last row of `id`. */
  predicate LastRow(rows: seq<Id>, id: Id, i: nat, n: nat)
  {
    i < n <= |rows| && rows[i] == id && forall k | i < k < n :: rows[k] != id
  }

  lemma {:induction false} PartOfRank(rows: seq<Id>, id: Id, i: nat, n: nat)
    requires LastRow(rows, id, i, n)
    ensures Part(rows, id, n) == 1.0 / (61 + i) as real
  {
    if i < n - 1 {
      PartOfRank(rows, id, i, n - 1);
    }
  }

  /** The retriever's score of an id, by its last rank in each list that holds it. */
  lemma ScoreOfRanks(dense: seq<Id>, sparse: seq<Id>, id: Id, i: nat, j: nat)
    ensures LastRow(dense, id, i, |dense|) && LastRow(sparse, id, j, |sparse|) ==>
      Score(dense, sparse, id) == 1.0 / (61 + i) as real + 1.0 / (61 + j) as real
    ensures LastRow(dense, id, i, |dense|) && id !in sparse ==> Score(dense, sparse, id) == 1.0 / (61 + i) as real
    ensures id !in dense && LastRow(sparse, id, j, |sparse|) ==> Score(dense, sparse, id) == 1.0 / (61 + j) as real
    ensures id !in dense && id !in sparse ==> Score(dense, sparse, id) == 0.0
  {
    if LastRow(dense, id, i, |dense|) {
      PartOfRank(dense, id, i, |dense|);
    }
    if LastRow(sparse, id, j, |sparse|) {
      PartOfRank(sparse, id, j, |sparse|);
    }
    if id !in dense {
      Elsewhere(dense, id, |dense|);
    }
    if id !in sparse {
      Elsewhere(sparse, id, |sparse|);
    }
  }

  /** Row `i` of a list is `x` and a later row is `y`. */
  predicate Ahead(rows: seq<Id>, x: Id, y: Id)
  {
    exists i, j | 0 <= i < j < |rows| :: rows[i] == x && rows[j] == y
  }

  /** An id ahead of another in both lists scores higher. */
  lemma AheadScoresHigher(dense: seq<Id>, sparse: seq<Id>, x: Id, y: Id)
    requires NoRepeats(dense) && NoRepeats(sparse) && Ahead(dense, x, y) && Ahead(sparse, x, y)
    ensures Score(dense, sparse, x) > Score(dense, sparse, y)
  {
    AheadInOne(dense, x, y);
    AheadInOne(sparse, x, y);
  }

  lemma AheadInOne(rows: seq<Id>, x: Id, y: Id)
    requires NoRepeats(rows) && Ahead(rows, x, y)
    ensures Part(rows, x, |rows|) > Part(rows, y, |rows|)
  {
    var i, j :| 0 <= i < j < |rows| && rows[i] == x && rows[j] == y;
    PartOfRow(rows, i, |rows|);
    PartOfRow(rows, j, |rows|);
    ShareFalls(i, j);
  }

  // ---- sorting and cutting ----

  ghost predicate Lists(ids: seq<Id>, all: set<Id>)
  {
    NoRepeats(ids) && forall x :: x in ids <==> x in all
  }

  ghost predicate Descending(ids: seq<Id>, scores: map<Id, real>)
  {
    && (forall i | 0 <= i < |ids| :: ids[i] in scores)
    && forall i, j | 0 <= i < j < |ids| :: scores[ids[i]] >= scores[ids[j]]
  }

  function InsertAt(ids: seq<Id>, p: nat, x: Id): (r: seq<Id>)
    requires p <= |ids|
    ensures |r| == |ids| + 1 && r[p] == x
    ensures forall i | 0 <= i < |r| && i != p :: r[i] == ids[if i < p then i else i - 1]
  {
    ids[..p] + [x] + ids[p..]
  }

  lemma InsertedLists(ids: seq<Id>, p: nat, x: Id, all: set<Id>)
    requires p <= |ids| && Lists(ids, all) && x !in all
    ensures Lists(InsertAt(ids, p, x), all + {x})
  {
    var r := InsertAt(ids, p, x);
    assert r == ids[..p] + [x] + ids[p..] && ids == ids[..p] + ids[p..];
    forall i | 0 <= i < |ids| ensures ids[i] != x {
      assert ids[i] in ids;
    }
  }

  /** Insert behind everything that scores at least as much. */
  method Insert(ids: seq<Id>, scores: map<Id, real>, x: Id, ghost all: set<Id>) returns (r: seq<Id>)
    requires Descending(ids, scores) && Lists(ids, all) && x !in all && x in scores
    ensures Descending(r, scores) && Lists(r, all + {x})
  {
    var p := |ids|;
    while p > 0 && scores[ids[p - 1]] < scores[x]
      invariant 0 <= p <= |ids|
      invariant forall i | p <= i < |ids| :: scores[ids[i]] < scores[x]
    {
      p := p - 1;
    }
    r := InsertAt(ids, p, x);
    InsertedLists(ids, p, x, all);
  }

  method Sort(ids: seq<Id>, scores: map<Id, real>) returns (r: seq<Id>)
    requires NoRepeats(ids) && forall i | 0 <= i < |ids| :: ids[i] in scores
    ensures Descending(r, scores) && Lists(r, set x | x in ids)
  {
    r := [];
    ghost var done: set<Id> := {};
    for n := 0 to |ids|
      invariant Descending(r, scores) && Lists(r, done)
      invariant forall x :: x in done <==> exists k | 0 <= k < n :: ids[k] == x
    {
      r := Insert(r, scores, ids[n], done);
      done := done + {ids[n]};
    }
    assert done == set x | x in ids;
  }

  /** The `topK` best of `all`, best first. */
  ghost predicate Best(ids: seq<Id>, all: set<Id>, topK: nat, score: Id -> real)
  {
    && NoRepeats(ids) && |ids| == Least(topK, |all|)
    && (forall i | 0 <= i < |ids| :: ids[i] in all)
    && (forall i, j | 0 <= i < j < |ids| :: score(ids[i]) >= score(ids[j]))
    && (forall i, y | 0 <= i < |ids| && y in all && y !in ids :: score(ids[i]) >= score(y))
  }

  lemma {:induction false} Counted(ids: seq<Id>, all: set<Id>)
    requires Lists(ids, all)
    ensures |ids| == |all|
  {
    if ids == [] {
      assert all == {};
    } else {
      var n := |ids| - 1;
      assert ids[n] in ids && ids == ids[..n] + [ids[n]];
      Counted(ids[..n], all - {ids[n]});
    }
  }

  lemma CutIsBest(sorted: seq<Id>, all: set<Id>, topK: nat, scores: map<Id, real>, score: Id -> real)
    requires Descending(sorted, scores) && Lists(sorted, all)
    requires forall x | x in all :: x in scores && scores[x] == score(x)
    ensures Best(sorted[..Least(topK, |sorted|)], all, topK, score)
  {
    Counted(sorted, all);
    var n := Least(topK, |sorted|);
    forall i | 0 <= i < |sorted| ensures sorted[i] in all && scores[sorted[i]] == score(sorted[i]) {
      assert sorted[i] in sorted;
    }
    forall i, y | 0 <= i < n && y in all && y !in sorted[..n] ensures score(sorted[i]) >= score(y) {
      var j := CutOff(sorted, n, y);
    }
  }

  /** What is listed and cut off stands behind the cut. */
  lemma CutOff(sorted: seq<Id>, n: nat, y: Id) returns (j: nat)
    requires n <= |sorted| && y in sorted && y !in sorted[..n]
    ensures n <= j < |sorted| && sorted[j] == y
  {
    j :| 0 <= j < |sorted| && sorted[j] == y;
    assert forall k | 0 <= k < n :: sorted[..n][k] == sorted[k];
  }

  // ---- the two implementations ----

  function Both(dense: seq<Id>, sparse: seq<Id>): set<Id>
  {
    set x | x in dense + sparse
  }

  /** The dictionary of one list: each id with the share of its last row. */
  method Shares(rows: seq<Id>) returns (shares: map<Id, real>)
    ensures forall x :: x in shares <==> x in rows
    ensures forall x | x in shares :: shares[x] == Part(rows, x, |rows|)
  {
    shares := map[];
    for n := 0 to |rows|
      invariant forall x :: x in shares <==> x in rows[..n]
      invariant forall x | x in shares :: shares[x] == Part(rows, x, n)
    {
      assert rows[..n + 1] == rows[..n] + [rows[n]];
      shares := shares[rows[n] := Share(n)];
    }
    assert rows[..|rows|] == rows;
  }

  /** The ids of both lists, each once. */
  method Distinct(rows: seq<Id>) returns (keys: seq<Id>)
    ensures Lists(keys, set x | x in rows)
  {
    keys := [];
    for n := 0 to |rows|
      invariant NoRepeats(keys) && forall x :: x in keys <==> x in rows[..n]
    {
      assert rows[..n + 1] == rows[..n] + [rows[n]];
      if rows[n] !in keys {
        keys := Appended(keys, rows[n]);
      }
    }
    assert rows[..|rows|] == rows;
  }

  function Appended(keys: seq<Id>, x: Id): (r: seq<Id>)
    requires NoRepeats(keys) && x !in keys
    ensures NoRepeats(r) && forall y :: y in r <==> y in keys || y == x
  {
    assert forall i | 0 <= i < |keys| :: keys[i] in keys;
    keys + [x]
  }

  function Get(scores: map<Id, real>, x: Id): real
  {
    if x in scores then scores[x] else 0.0
  }

  lemma {:induction false} NotListed(rows: seq<Id>, x: Id, n: nat)
    requires n <= |rows| && x !in rows
    ensures Part(rows, x, n) == 0.0
  {
    if n > 0 {
      assert rows[n - 1] in rows;
      NotListed(rows, x, n - 1);
    }
  }

  /** The retriever: a dictionary per list, the union of their keys sorted by score and cut. */
  method RrfMerge(dense: seq<Id>, sparse: seq<Id>, topK: nat) returns (ids: seq<Id>)
    ensures Best(ids, Both(dense, sparse), topK, (x: Id) => Score(dense, sparse, x))
  {
    var a := Shares(dense);
    var b := Shares(sparse);
    var keys := Distinct(dense + sparse);
    var scores := map x | x in keys :: Get(a, x) + Get(b, x);
    forall x | x in scores ensures scores[x] == Score(dense, sparse, x) {
      if x !in dense {
        NotListed(dense, x, |dense|);
      }
      if x !in sparse {
        NotListed(sparse, x, |sparse|);
      }
    }
    ids := Ranking(keys, Both(dense, sparse), scores, topK, (x: Id) => Score(dense, sparse, x));
  }

  method Ranking(keys: seq<Id>, ghost all: set<Id>, scores: map<Id, real>, topK: nat, ghost score: Id -> real) returns (ids: seq<Id>)
    requires Lists(keys, all) && forall x | x in all :: x in scores && scores[x] == score(x)
    ensures Best(ids, all, topK, score)
  {
    forall i | 0 <= i < |keys| ensures keys[i] in scores {
      assert keys[i] in keys;
    }
    var sorted := Sort(keys, scores);
    assert (set x | x in keys) == all;
    CutIsBest(sorted, all, topK, scores, score);
    ids := sorted[..Least(topK, |sorted|)];
  }

  /** One list added to the running scores. */
  method Accumulate(rows: seq<Id>, scores0: map<Id, real>) returns (scores: map<Id, real>)
    ensures forall x :: x in scores <==> x in scores0 || x in rows
    ensures forall x | x in scores :: scores[x] == Get(scores0, x) + Sum(rows, x, |rows|)
  {
    scores := scores0;
    for n := 0 to |rows|
      invariant forall x :: x in scores <==> x in scores0 || x in rows[..n]
      invariant forall x :: Get(scores, x) == Get(scores0, x) + Sum(rows, x, n)
    {
      assert rows[..n + 1] == rows[..n] + [rows[n]];
      scores := scores[rows[n] := Get(scores, rows[n]) + Share(n)];
    }
    assert rows[..|rows|] == rows;
    assert forall x | x in scores :: scores[x] == Get(scores, x);
  }

  /** The file search: one dictionary of running scores, sorted and cut. */
  method Fuse(dense: seq<Id>, sparse: seq<Id>, topK: nat) returns (ids: seq<Id>)
    ensures Best(ids, Both(dense, sparse), topK, (x: Id) => Sum(dense, x, |dense|) + Sum(sparse, x, |sparse|))
  {
    var scores := Accumulate(dense, map[]);
    ghost var first := scores;
    scores := Accumulate(sparse, scores);
    var keys := Distinct(dense + sparse);
    forall x | x in Both(dense, sparse)
      ensures x in scores && scores[x] == Sum(dense, x, |dense|) + Sum(sparse, x, |sparse|)
    {
      if x !in dense {
        assert forall k | 0 <= k < |dense| :: dense[k] in dense;
        Elsewhere(dense, x, |dense|);
      }
    }
    ids := Ranking(keys, Both(dense, sparse), scores, topK, (x: Id) => Sum(dense, x, |dense|) + Sum(sparse, x, |sparse|));
  }

  /** In any best list, an id ahead of another in both input lists is returned whenever the other is, before it. */
  lemma AheadComesOutAhead(dense: seq<Id>, sparse: seq<Id>, topK: nat, ids: seq<Id>, x: Id, j: nat)
    requires NoRepeats(dense) && NoRepeats(sparse) && Best(ids, Both(dense, sparse), topK, (z: Id) => Score(dense, sparse, z))
    requires j < |ids| && Ahead(dense, x, ids[j]) && Ahead(sparse, x, ids[j])
    ensures exists i | 0 <= i < j :: ids[i] == x
  {
    AheadScoresHigher(dense, sparse, x, ids[j]);
    var k :| 0 <= k < |dense| && dense[k] == x;
    assert (dense + sparse)[k] == x && x in Both(dense, sparse);
    assert x in ids;
    var i :| 0 <= i < |ids| && ids[i] == x;
  }

  // ---- when the two agree ----

  lemma {:induction false} SumIsMore(rows: seq<Id>, id: Id, n: nat)
    requires n <= |rows|
    ensures Sum(rows, id, n) >= Part(rows, id, n) >= 0.0
    ensures (exists k | 0 <= k < n :: rows[k] == id) ==> Sum(rows, id, n) > 0.0
  {
    if n > 0 {
      SumIsMore(rows, id, n - 1);
    }
  }

  lemma {:induction false} RepeatedIsMore(rows: seq<Id>, i: nat, j: nat, n: nat)
    requires i < j < n <= |rows| && rows[i] == rows[j]
    ensures Sum(rows, rows[j], n) > Part(rows, rows[j], n)
  {
    if rows[n - 1] == rows[j] {
      SumIsMore(rows, rows[j], n - 1);
      assert rows[i] == rows[j];
    } else {
      RepeatedIsMore(rows, i, j, n - 1);
    }
  }

  ghost predicate SameScores(dense: seq<Id>, sparse: seq<Id>)
  {
    forall id: Id :: SameFor(dense, sparse, id)
  }

  predicate SameFor(dense: seq<Id>, sparse: seq<Id>, id: Id)
  {
    Sum(dense, id, |dense|) + Sum(sparse, id, |sparse|) == Score(dense, sparse, id)
  }

  /** The two implementations give all ids the same scores if and only if neither list repeats an id. */
  lemma SameScoresExactly(dense: seq<Id>, sparse: seq<Id>)
    ensures SameScores(dense, sparse) <==> NoRepeats(dense) && NoRepeats(sparse)
  {
    if NoRepeats(dense) && NoRepeats(sparse) {
      forall id: Id ensures SameFor(dense, sparse, id) {
        SameScore(dense, id, |dense|);
        SameScore(sparse, id, |sparse|);
      }
    } else if i, j :| 0 <= i < j < |dense| && dense[i] == dense[j] {
      RepeatedIsMore(dense, i, j, |dense|);
      SumIsMore(sparse, dense[j], |sparse|);
      assert !SameFor(dense, sparse, dense[j]);
    } else {
      var i, j :| 0 <= i < j < |sparse| && sparse[i] == sparse[j];
      RepeatedIsMore(sparse, i, j, |sparse|);
      SumIsMore(dense, sparse[j], |dense|);
      assert !SameFor(dense, sparse, sparse[j]);
    }
  }
}
