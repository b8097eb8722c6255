/** What a ranked search must return, and how much of the answer that fixes. */
module TopK {
  import opened Bm25

  datatype Hit = Hit(chunk: Chunk, score: real)

  /** Everything a score depends on. */
  datatype Scorer = Scorer(log: Log, terms: seq<string>, stats: Stats) {
    function Of(c: Chunk): real {
      Score(log, terms, c, stats)
    }
  }

  /** How many hits are asked for: between 1 and 20. */
  function Limit(topK: int): (limit: nat)
    ensures 1 <= limit <= 20
    ensures limit == topK || topK < limit == 1 || limit == 20 < topK
  {
    var most := if topK < 20 then topK else 20;
    if most < 1 then 1 else most
  }

  /** How many hits a search must return when `matching` chunks score above zero: as many as asked for,
      at least one and at most 20, or all there are. */
  ghost function HitCount(matching: nat, topK: int): nat {
    if topK < 1 then (if matching < 1 then matching else 1)
    else if topK > 20 then (if matching < 20 then matching else 20)
    else if matching < topK then matching else topK
  }

  ghost function Positive(s: Scorer, rows: set<Chunk>): set<Chunk> {
    set c | c in rows && s.Of(c) > 0.0
  }

  ghost predicate Below(s: Scorer, c: Chunk, hits: seq<Hit>, i: nat)
    requires i < |hits|
  {
    s.Of(c) <= hits[i].score
  }

  ghost function ChunksOf(hits: seq<Hit>): (chunks: set<Chunk>) {
    set h | h in hits :: h.chunk
  }

  ghost predicate Differ(hits: seq<Hit>, i: nat, j: nat)
    requires i < |hits| && j < |hits|
  {
    hits[i].chunk != hits[j].chunk
  }

  ghost predicate Unique(hits: seq<Hit>) {
    forall i: nat, j: nat :: i < j < |hits| ==> Differ(hits, i, j)
  }

  ghost predicate InPlace(hits: seq<Hit>, i: nat, j: nat)
    requires i < |hits| && j < |hits|
  {
    hits[j].score <= hits[i].score
  }

  /** Best first. */
  ghost predicate Descending(hits: seq<Hit>) {
    forall i: nat, j: nat :: i < j < |hits| ==> InPlace(hits, i, j)
  }

  ghost predicate Scored(s: Scorer, hits: seq<Hit>) {
    forall h :: h in hits ==> h.score == s.Of(h.chunk)
  }

  /** `limit` hits with the highest positive scores, or all there are; best first, none twice, and
      nothing that was left out scores higher than anything returned. */
  ghost predicate Ranked(s: Scorer, rows: set<Chunk>, limit: nat, hits: seq<Hit>) {
    && (forall i :: 0 <= i < |hits| ==> hits[i].chunk in rows && hits[i].score == s.Of(hits[i].chunk) > 0.0)
    && Unique(hits) && Descending(hits)
    && |hits| == (if |Positive(s, rows)| < limit then |Positive(s, rows)| else limit)
    && (forall c, i: nat :: c in Positive(s, rows) && c !in ChunksOf(hits) && i < |hits| ==> Below(s, c, hits, i))
  }

  // -------------------------------------------------------- the ranking is determined

  lemma {:induction false} DistinctChunks(hits: seq<Hit>, n: nat)
    requires n <= |hits|
    requires Unique(hits)
    ensures |ChunksOf(hits[..n])| == n
  {
    if n > 0 {
      DistinctChunks(hits, n - 1);
      var h, before := hits[n - 1], hits[..n - 1];
      assert hits[..n] == before + [h];
      assert ChunksOf(hits[..n]) == ChunksOf(before) + {h.chunk};
      forall x | x in before ensures x.chunk != h.chunk {
        var i: nat :| i < |before| && before[i] == x;
        assert Differ(hits, i, n - 1);
      }
    }
  }

  /** A set with more elements than another has one that is not in the other. */
  lemma Pigeonhole<T>(a: set<T>, b: set<T>) returns (x: T)
    requires |a| > |b|
    ensures x in a && x !in b
  {
    if forall y :: y in a ==> y in b {
      SubsetSize(a, b);
    }
    x :| x in a && x !in b;
  }

  lemma SubsetSize<T>(a: set<T>, b: set<T>)
    requires a <= b
    ensures |a| <= |b|
  {
    assert |b| == |a| + |b - a| by {
      assert b == a + (b - a);
    }
  }

  /** What is listed among the first scores at least as high as the last of them. */
  lemma FrontScores(s: Scorer, rows: set<Chunk>, limit: nat, a: seq<Hit>, i: nat, c: Chunk)
    requires Ranked(s, rows, limit, a) && i < |a| && c in ChunksOf(a[..i + 1])
    ensures c in Positive(s, rows) && a[i].score <= s.Of(c)
  {
    var j :| 0 <= j < i + 1 && a[j].chunk == c;
    assert j < i ==> InPlace(a, j, i);
  }

  /** What is not listed among the first scores no higher than the next one. */
  lemma BackScores(s: Scorer, rows: set<Chunk>, limit: nat, b: seq<Hit>, i: nat, c: Chunk)
    requires Ranked(s, rows, limit, b) && i < |b| && c in Positive(s, rows) && c !in ChunksOf(b[..i])
    ensures s.Of(c) <= b[i].score
  {
    if c in ChunksOf(b) {
      var k :| 0 <= k < |b| && b[k].chunk == c;
      assert forall m :: 0 <= m < i ==> b[m] in b[..i];
      assert k >= i;
      assert k > i ==> InPlace(b, i, k);
    } else {
      assert Below(s, c, b, i);
    }
  }

  lemma ScoreAtMost(s: Scorer, rows: set<Chunk>, limit: nat, a: seq<Hit>, b: seq<Hit>, i: nat)
    requires Ranked(s, rows, limit, a) && Ranked(s, rows, limit, b) && i < |a|
    ensures a[i].score <= b[i].score
  {
    DistinctChunks(a, i + 1);
    DistinctChunks(b, i);
    var c := Pigeonhole(ChunksOf(a[..i + 1]), ChunksOf(b[..i]));
    FrontScores(s, rows, limit, a, i, c);
    BackScores(s, rows, limit, b, i, c);
  }

  /** Any two rankings agree in length and in the score at every place: they can differ only in the
      order, or the choice, of chunks with equal scores. */
  lemma RankingIsDetermined(s: Scorer, rows: set<Chunk>, limit: nat, a: seq<Hit>, b: seq<Hit>)
    requires Ranked(s, rows, limit, a) && Ranked(s, rows, limit, b)
    ensures |a| == |b| && forall i :: 0 <= i < |a| ==> a[i].score == b[i].score
  {
    forall i | 0 <= i < |a| ensures a[i].score == b[i].score {
      ScoreAtMost(s, rows, limit, a, b, i);
      ScoreAtMost(s, rows, limit, b, a, i);
    }
  }

  // -------------------------------------------------------------- the plain full scan

  function InsertHit(hits: seq<Hit>, h: Hit): seq<Hit> {
    if hits == [] || hits[|hits| - 1].score >= h.score then hits + [h]
    else InsertHit(hits[..|hits| - 1], h) + [hits[|hits| - 1]]
  }

  /** Score every chunk, keep the positive ones, sort. */
  function ScanAll(s: Scorer, chunks: seq<Chunk>): seq<Hit> {
    if chunks == [] then []
    else
      var rest, c := ScanAll(s, chunks[..|chunks| - 1]), chunks[|chunks| - 1];
      if s.Of(c) > 0.0 then InsertHit(rest, Hit(c, s.Of(c))) else rest
  }

  function FullScan(s: Scorer, chunks: seq<Chunk>, limit: nat): seq<Hit> {
    var all := ScanAll(s, chunks);
    if |all| < limit then all else all[..limit]
  }

  ghost predicate OtherRow(chunks: seq<Chunk>, i: nat, j: nat)
    requires i < |chunks| && j < |chunks|
  {
    chunks[i] != chunks[j]
  }

  ghost predicate Distinct(chunks: seq<Chunk>) {
    forall i: nat, j: nat :: i < |chunks| && j < |chunks| && i != j ==> OtherRow(chunks, i, j)
  }

  ghost function Rows(chunks: seq<Chunk>): set<Chunk> {
    set c | c in chunks
  }

  lemma {:induction false} InsertMembers(hits: seq<Hit>, h: Hit)
    ensures forall x :: x in InsertHit(hits, h) <==> x in hits || x == h
  {
    if !(hits == [] || hits[|hits| - 1].score >= h.score) {
      var init, last := hits[..|hits| - 1], hits[|hits| - 1];
      InsertMembers(init, h);
      assert hits == init + [last];
    }
  }

  lemma DescendingMore(hits: seq<Hit>, h: Hit)
    requires Descending(hits) && forall i :: 0 <= i < |hits| ==> h.score <= hits[i].score
    ensures Descending(hits + [h])
  {
    forall i: nat, j: nat | i < j < |hits + [h]| ensures InPlace(hits + [h], i, j) {
      assert j < |hits| ==> InPlace(hits, i, j);
    }
  }

  lemma {:induction false} InsertDescends(hits: seq<Hit>, h: Hit)
    requires Descending(hits)
    ensures Descending(InsertHit(hits, h))
  {
    if hits == [] || hits[|hits| - 1].score >= h.score {
      forall i | 0 <= i < |hits| ensures h.score <= hits[i].score {
        assert i < |hits| - 1 ==> InPlace(hits, i, |hits| - 1);
      }
      DescendingMore(hits, h);
    } else {
      var init, last := hits[..|hits| - 1], hits[|hits| - 1];
      forall i: nat, j: nat | i < j < |init| ensures InPlace(init, i, j) {
        assert InPlace(hits, i, j);
      }
      InsertDescends(init, h);
      InsertMembers(init, h);
      var inner := InsertHit(init, h);
      forall i | 0 <= i < |inner| ensures last.score <= inner[i].score {
        assert inner[i] in inner;
        if inner[i] != h {
          var k: nat :| k < |init| && init[k] == inner[i];
          assert InPlace(hits, k, |hits| - 1);
        }
      }
      DescendingMore(inner, last);
    }
  }

  lemma UniqueMore(hits: seq<Hit>, h: Hit)
    requires Unique(hits) && h.chunk !in ChunksOf(hits)
    ensures Unique(hits + [h])
  {
    forall i: nat, j: nat | i < j < |hits + [h]| ensures Differ(hits + [h], i, j) {
      assert j < |hits| ==> Differ(hits, i, j);
      assert hits[i] in hits;
    }
  }

  lemma UniqueInit(hits: seq<Hit>)
    requires Unique(hits) && hits != []
    ensures Unique(hits[..|hits| - 1]) && hits[|hits| - 1].chunk !in ChunksOf(hits[..|hits| - 1])
  {
    var init := hits[..|hits| - 1];
    forall i: nat, j: nat | i < j < |init| ensures Differ(init, i, j) {
      assert Differ(hits, i, j);
    }
    forall h | h in init ensures h.chunk != hits[|hits| - 1].chunk {
      var i: nat :| i < |init| && init[i] == h;
      assert Differ(hits, i, |hits| - 1);
    }
  }

  lemma {:induction false} InsertUnique(hits: seq<Hit>, h: Hit)
    requires Unique(hits) && h.chunk !in ChunksOf(hits)
    ensures Unique(InsertHit(hits, h))
  {
    if hits == [] || hits[|hits| - 1].score >= h.score {
      UniqueMore(hits, h);
    } else {
      var init, last := hits[..|hits| - 1], hits[|hits| - 1];
      assert hits == init + [last];
      assert last in hits;
      UniqueInit(hits);
      InsertUnique(init, h);
      InsertMembers(init, h);
      var inner := InsertHit(init, h);
      ChunksOfMembers(init, inner, h);
      UniqueMore(inner, last);
    }
  }

  lemma ChunksOfMembers(a: seq<Hit>, b: seq<Hit>, h: Hit)
    requires forall x :: x in b <==> x in a || x == h
    ensures ChunksOf(b) == ChunksOf(a) + {h.chunk}
  {
    assert h in b;
  }

  lemma {:induction false} ScanSorts(s: Scorer, chunks: seq<Chunk>)
    requires Distinct(chunks)
    ensures var all := ScanAll(s, chunks);
            Scored(s, all) && Descending(all) && Unique(all) && ChunksOf(all) == Positive(s, Rows(chunks))
  {
    if chunks != [] {
      var init, c := chunks[..|chunks| - 1], chunks[|chunks| - 1];
      forall i: nat, j: nat | i < |init| && j < |init| && i != j ensures OtherRow(init, i, j) {
        assert OtherRow(chunks, i, j);
      }
      ScanSorts(s, init);
      assert chunks == init + [c];
      if s.Of(c) > 0.0 {
        var rest, h := ScanAll(s, init), Hit(c, s.Of(c));
        forall x | x in init ensures x != c {
          var i: nat :| i < |init| && init[i] == x;
          assert OtherRow(chunks, i, |init|);
        }
        InsertMembers(rest, h);
        InsertDescends(rest, h);
        InsertUnique(rest, h);
        ChunksOfMembers(rest, InsertHit(rest, h), h);
        assert Positive(s, Rows(chunks)) == Positive(s, Rows(init)) + {c};
      } else {
        assert Positive(s, Rows(chunks)) == Positive(s, Rows(init));
      }
    }
  }

  /** The first hits of a complete sorted list are a ranking. */
  lemma CutIsRanked(s: Scorer, rows: set<Chunk>, all: seq<Hit>, limit: nat)
    requires Scored(s, all) && Descending(all) && Unique(all) && ChunksOf(all) == Positive(s, rows)
    ensures Ranked(s, rows, limit, if |all| < limit then all else all[..limit])
  {
    var hits := if |all| < limit then all else all[..limit];
    DistinctChunks(all, |all|);
    assert all[..|all|] == all;
    forall i: nat, j: nat | i < j < |hits| ensures Differ(hits, i, j) && InPlace(hits, i, j) {
      assert Differ(all, i, j) && InPlace(all, i, j);
    }
    forall i | 0 <= i < |hits| ensures hits[i].chunk in rows && hits[i].score == s.Of(hits[i].chunk) > 0.0 {
      assert all[i] in all;
      assert all[i].chunk in ChunksOf(all);
    }
    forall c, i: nat | c in Positive(s, rows) && c !in ChunksOf(hits) && i < |hits| ensures Below(s, c, hits, i) {
      LeftOutIsBelow(s, all, |hits|, c, i);
    }
  }

  lemma LeftOutIsBelow(s: Scorer, all: seq<Hit>, n: nat, c: Chunk, i: nat)
    requires Scored(s, all) && Descending(all) && i < n <= |all| && c in ChunksOf(all) && c !in ChunksOf(all[..n])
    ensures s.Of(c) <= all[i].score
  {
    var k :| 0 <= k < |all| && all[k].chunk == c;
    assert forall m :: 0 <= m < n ==> all[m] in all[..n];
    assert k >= n;
    assert InPlace(all, i, k);
  }

  /** Scoring everything, sorting and cutting gives a ranking - so a ranking has the scores that gives. */
  lemma FullScanIsRanked(s: Scorer, chunks: seq<Chunk>, limit: nat)
    requires Distinct(chunks)
    ensures Ranked(s, Rows(chunks), limit, FullScan(s, chunks, limit))
  {
    ScanSorts(s, chunks);
    CutIsRanked(s, Rows(chunks), ScanAll(s, chunks), limit);
  }
}
