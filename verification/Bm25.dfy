/**
 * BM25 scores, the statistics they rest on, and the inverted index
 * (backend/app/modules/knowledge/bm25.py, knowledge/service.py and knowledge/search_cache.py).
 * Scores are real numbers; the logarithm is a parameter.
 */
module Bm25 {

  datatype Chunk = Chunk(id: nat, text: string, termFreqs: map<string, int>, tokenCount: int)

  datatype Stats = Stats(docCount: nat, avgDocLen: real, docFreq: map<string, nat>, updatedAt: string)

  type Log = real -> real

  const K1 := 1.2
  const B := 0.75

  function Max(x: real, y: real): real {
    if x < y then y else x
  }

  function GetOr<V>(m: map<string, V>, key: string, fallback: V): V {
    if key in m then m[key] else fallback
  }

  // ---------------------------------------------------------------------- scoring

  /** What one query term with `tf > 0` occurrences adds. */
  function Weight(log: Log, tf: int, docLen: int, stats: Stats, df: nat): real
    requires tf > 0 && docLen > 0
  {
    var idf := log(1.0 + (stats.docCount as real - df as real + 0.5) / (df as real + 0.5));
    var denom := tf as real + K1 * (1.0 - B + B * (docLen as real / Max(stats.avgDocLen, 0.000001)));
    DenomPositive(tf as real, docLen as real / Max(stats.avgDocLen, 0.000001));
    idf * (tf as real * (K1 + 1.0) / denom)
  }

  lemma DenomPositive(tf: real, ratio: real)
    requires tf > 0.0 && ratio > 0.0
    ensures tf + K1 * (1.0 - B + B * ratio) > 0.0
  {
  }

  function TermScore(log: Log, term: string, c: Chunk, stats: Stats): real
    requires c.tokenCount > 0
  {
    var tf := GetOr(c.termFreqs, term, 0);
    if tf <= 0 then 0.0 else Weight(log, tf, c.tokenCount, stats, GetOr(stats.docFreq, term, 0))
  }

  function SumScores(log: Log, terms: seq<string>, c: Chunk, stats: Stats): real
    requires c.tokenCount > 0
  {
    if terms == [] then 0.0
    else SumScores(log, terms[..|terms| - 1], c, stats) + TermScore(log, terms[|terms| - 1], c, stats)
  }

  function Score(log: Log, terms: seq<string>, c: Chunk, stats: Stats): real {
    if c.tokenCount <= 0 || stats.docCount <= 0 then 0.0 else SumScores(log, terms, c, stats)
  }

  method Bm25Score(log: Log, terms: seq<string>, c: Chunk, stats: Stats) returns (score: real)
    ensures score == Score(log, terms, c, stats)
  {
    if c.tokenCount <= 0 || stats.docCount <= 0 {
      return 0.0;
    }
    score := 0.0;
    for i := 0 to |terms|
      invariant score == SumScores(log, terms[..i], c, stats)
    {
      assert terms[..i + 1][..i] == terms[..i];
      var tf := GetOr(c.termFreqs, terms[i], 0);
      if tf <= 0 {
        continue;
      }
      score := score + Weight(log, tf, c.tokenCount, stats, GetOr(stats.docFreq, terms[i], 0));
    }
    assert terms[..|terms|] == terms;
  }

  /** A chunk without any of the terms scores nothing, whatever the statistics. */
  lemma {:induction false} NoTermNoScore(log: Log, terms: seq<string>, c: Chunk, stats: Stats)
    requires forall t :: t in terms ==> t !in c.termFreqs
    ensures Score(log, terms, c, stats) == 0.0
  {
    if terms != [] {
      NoTermNoScore(log, terms[..|terms| - 1], c, stats);
    }
  }

  /** All the logarithm has to be: positive above one. */
  ghost predicate PositiveAboveOne(log: Log) {
    forall x :: x > 1.0 ==> log(x) > 0.0
  }

  lemma WeightPositive(log: Log, tf: int, docLen: int, stats: Stats, df: nat)
    requires PositiveAboveOne(log) && tf > 0 && docLen > 0 && df <= stats.docCount
    ensures Weight(log, tf, docLen, stats, df) > 0.0
  {
    var x := (stats.docCount as real - df as real + 0.5) / (df as real + 0.5);
    assert x > 0.0;
    assert log(1.0 + x) > 0.0;
    var ratio := docLen as real / Max(stats.avgDocLen, 0.000001);
    DenomPositive(tf as real, ratio);
    ProductPositive(log(1.0 + x), tf as real * (K1 + 1.0), tf as real + K1 * (1.0 - B + B * ratio));
  }

  lemma ProductPositive(a: real, b: real, c: real)
    requires a > 0.0 && b > 0.0 && c > 0.0
    ensures a * (b / c) > 0.0
  {
    assert b / c > 0.0;
  }

  /** With statistics that fit - no term in more documents than there are - exactly the chunks with
      tokens and with a query term score above zero, and none below. */
  lemma {:induction false} PositiveExactlyOnAMatch(log: Log, terms: seq<string>, c: Chunk, stats: Stats)
    requires PositiveAboveOne(log) && c.tokenCount > 0 && stats.docCount > 0
    requires forall t :: t in stats.docFreq ==> stats.docFreq[t] <= stats.docCount
    ensures Score(log, terms, c, stats) >= 0.0
    ensures Score(log, terms, c, stats) > 0.0 <==> exists t :: t in terms && GetOr(c.termFreqs, t, 0) > 0
  {
    if terms != [] {
      var init, last := terms[..|terms| - 1], terms[|terms| - 1];
      PositiveExactlyOnAMatch(log, init, c, stats);
      var tf := GetOr(c.termFreqs, last, 0);
      if tf > 0 {
        WeightPositive(log, tf, c.tokenCount, stats, GetOr(stats.docFreq, last, 0));
        assert last in terms;
      } else if t :| t in terms && GetOr(c.termFreqs, t, 0) > 0 {
        assert t in init;
      }
    }
  }

  // ------------------------------------------------------------------ what a score means

  /** The length of a chunk in average lengths. */
  function Ratio(docLen: int, avgDocLen: real): (ratio: real)
    requires docLen > 0
    ensures ratio > 0.0 && (avgDocLen >= 0.000001 ==> ratio * avgDocLen == docLen as real)
  {
    docLen as real / Max(avgDocLen, 0.000001)
  }

  /** The inverse document frequency: how much a term says that `df` of `docCount` documents contain. */
  function Idf(log: Log, docCount: nat, df: nat): real {
    log(1.0 + (docCount as real - df as real + 0.5) / (df as real + 0.5))
  }

  lemma QuotientTimes(a: real, b: real, c: real)
    requires c != 0.0
    ensures a * (b / c) * c == a * b
  {
    assert b / c * c == b;
  }

  /** A weight is the inverse document frequency times a share of 2.2, as large as `tf` is beside
      0.3 and 0.9 times the relative length. */
  lemma WeightIsShare(log: Log, tf: int, docLen: int, stats: Stats, df: nat)
    requires tf > 0 && docLen > 0
    ensures Weight(log, tf, docLen, stats, df) * (tf as real + 0.3 + 0.9 * Ratio(docLen, stats.avgDocLen)) ==
            Idf(log, stats.docCount, df) * (2.2 * tf as real)
  {
    var ratio := Ratio(docLen, stats.avgDocLen);
    DenomPositive(tf as real, ratio);
    QuotientTimes(Idf(log, stats.docCount, df), tf as real * (K1 + 1.0), tf as real + K1 * (1.0 - B + B * ratio));
    assert K1 * (1.0 - B + B * ratio) == 0.3 + 0.9 * ratio;
  }

  /** So one occurrence in a chunk of average length weighs the inverse document frequency. */
  lemma AverageChunkWeighsIdf(log: Log, docLen: int, stats: Stats, df: nat)
    requires docLen > 0 && docLen as real == stats.avgDocLen
    ensures Weight(log, 1, docLen, stats, df) == Idf(log, stats.docCount, df)
  {
    WeightIsShare(log, 1, docLen, stats, df);
    assert docLen as real >= 1.0 && Max(stats.avgDocLen, 0.000001) == docLen as real;
    assert Ratio(docLen, stats.avgDocLen) == docLen as real / docLen as real == 1.0;
  }

  /** `x` and `y` are shares of `g`. */
  lemma ShareGrows(x: real, y: real, a: real, b: real, more: real, less: real, g: real)
    requires 0.0 < b <= a && 0.0 < less <= more && g >= 0.0
    requires x * (a + less) == g * a && y * (b + more) == g * b
    ensures y <= x && (g > 0.0 && (b < a || less < more) ==> y < x)
  {
    Products(a, b, more, less);
    Crosswise(x, y, a + less, b + more, g * a, g * b);
    Factor(g, a, b, more, less);
    SignOfProduct(x - y, (a + less) * (b + more), g * (a * more - b * less));
  }

  lemma Factor(g: real, a: real, b: real, more: real, less: real)
    ensures g * a * (b + more) - g * b * (a + less) == g * (a * more - b * less)
  {
  }

  lemma ShareIsLess(x: real, a: real, less: real, g: real)
    requires a > 0.0 && less > 0.0 && g > 0.0 && x * (a + less) == g * a
    ensures x < g
  {
    assert (g - x) * (a + less) == g * less;
    SignOfProduct(g - x, a + less, g * less);
  }

  lemma Crosswise(x: real, y: real, p: real, q: real, xp: real, yq: real)
    requires x * p == xp && y * q == yq
    ensures (x - y) * (p * q) == xp * q - yq * p
  {
    assert x * p * q == xp * q && y * q * p == yq * p;
  }

  lemma Products(a: real, b: real, more: real, less: real)
    requires 0.0 < b <= a && 0.0 < less <= more
    ensures a * more >= b * less && (b < a || less < more ==> a * more > b * less)
  {
    assert a * more - b * less == (a - b) * more + b * (more - less);
    assert (a - b) * more >= 0.0 && b * (more - less) >= 0.0;
  }

  lemma SignOfProduct(x: real, positive: real, product: real)
    requires positive > 0.0 && x * positive == product >= 0.0
    ensures x >= 0.0 && (product > 0.0 ==> x > 0.0)
  {
  }

  /** A term weighs more the more often it occurs and the shorter the chunk is, but always less than
      2.2 times the inverse document frequency. */
  lemma DenserWeighsMore(log: Log, tf: int, docLen: int, tf': int, docLen': int, stats: Stats, df: nat)
    requires PositiveAboveOne(log) && df <= stats.docCount
    requires tf >= tf' > 0 && 0 < docLen <= docLen'
    ensures Weight(log, tf, docLen, stats, df) >= Weight(log, tf', docLen', stats, df)
    ensures tf > tf' || docLen < docLen' ==>
              Weight(log, tf, docLen, stats, df) > Weight(log, tf', docLen', stats, df)
    ensures Weight(log, tf, docLen, stats, df) < 2.2 * Idf(log, stats.docCount, df)
  {
    WeightIsShare(log, tf, docLen, stats, df);
    WeightIsShare(log, tf', docLen', stats, df);
    IdfPositive(log, stats.docCount, df);
    var short, long := Ratio(docLen, stats.avgDocLen), Ratio(docLen', stats.avgDocLen);
    RatioGrows(docLen, docLen', Max(stats.avgDocLen, 0.000001));
    var most, weight := 2.2 * Idf(log, stats.docCount, df), Weight(log, tf, docLen, stats, df);
    ShareGrows(weight, Weight(log, tf', docLen', stats, df), tf as real, tf' as real, 0.3 + 0.9 * long,
               0.3 + 0.9 * short, most);
    ShareIsLess(weight, tf as real, 0.3 + 0.9 * short, most);
  }

  lemma IdfPositive(log: Log, docCount: nat, df: nat)
    requires PositiveAboveOne(log) && df <= docCount
    ensures Idf(log, docCount, df) > 0.0
  {
    assert (docCount as real - df as real + 0.5) / (df as real + 0.5) > 0.0;
  }

  lemma RatioGrows(docLen: int, docLen': int, avg: real)
    requires docLen <= docLen' && avg > 0.0
    ensures docLen as real / avg <= docLen' as real / avg
    ensures docLen < docLen' ==> docLen as real / avg < docLen' as real / avg
  {
    assert (docLen' as real / avg - docLen as real / avg) * avg == (docLen' - docLen) as real;
  }

  ghost predicate Increasing(log: Log) {
    forall x, y :: 0.0 < x < y ==> log(x) < log(y)
  }

  /** The fewer documents contain a term, the more it weighs. */
  lemma RarerWeighsMore(log: Log, tf: int, docLen: int, stats: Stats, df: nat, df': nat)
    requires Increasing(log) && tf > 0 && docLen > 0 && df < df' <= stats.docCount
    ensures Weight(log, tf, docLen, stats, df) > Weight(log, tf, docLen, stats, df')
  {
    WeightIsShare(log, tf, docLen, stats, df);
    WeightIsShare(log, tf, docLen, stats, df');
    RarerHasMoreIdf(log, stats.docCount, df, df');
    MoreOfShare(Weight(log, tf, docLen, stats, df), Weight(log, tf, docLen, stats, df'),
                tf as real + 0.3 + 0.9 * Ratio(docLen, stats.avgDocLen), Idf(log, stats.docCount, df),
                Idf(log, stats.docCount, df'), 2.2 * tf as real);
  }

  lemma MoreOfShare(x: real, y: real, share: real, most: real, least: real, scale: real)
    requires x * share == most * scale && y * share == least * scale
    requires share > 0.0 && scale > 0.0 && most > least
    ensures x > y
  {
    Scales(least, most, scale);
    Larger(x, y, share);
  }

  lemma Scales(less: real, more: real, scale: real)
    requires less < more && scale > 0.0
    ensures less * scale < more * scale
  {
    assert (more - less) * scale > 0.0;
  }

  lemma Larger(x: real, y: real, share: real)
    requires share > 0.0 && x * share > y * share
    ensures x > y
  {
    if x < y {
      Scales(x, y, share);
    }
  }

  lemma RarerHasMoreIdf(log: Log, docCount: nat, df: nat, df': nat)
    requires Increasing(log) && df < df' <= docCount
    ensures Idf(log, docCount, df) > Idf(log, docCount, df')
  {
    var n, d, d' := docCount as real + 1.0, df as real + 0.5, df' as real + 0.5;
    OddsFall(n, d, d');
    assert docCount as real - df as real + 0.5 == n - d && docCount as real - df' as real + 0.5 == n - d';
    assert log(1.0 + (n - d') / d') < log(1.0 + (n - d) / d);
  }

  lemma OddsFall(n: real, d: real, d': real)
    requires 0.0 < d < d' <= n
    ensures 0.0 <= (n - d') / d' < (n - d) / d
  {
    var x, y := (n - d) / d, (n - d') / d';
    assert x * d == n - d && y * d' == n - d';
    Crosswise(x, y, d, d', n - d, n - d');
    assert (n - d) * d' - (n - d') * d == n * (d' - d);
    SignOfProduct(x - y, d * d', n * (d' - d));
  }

  /** Scores add up over the terms of the query. */
  lemma {:induction false} ScoreAddsUp(log: Log, a: seq<string>, b: seq<string>, c: Chunk, stats: Stats)
    ensures Score(log, a + b, c, stats) == Score(log, a, c, stats) + Score(log, b, c, stats)
    decreases |b|
  {
    if b == [] {
      assert a + b == a;
    } else {
      assert (a + b)[..|a + b| - 1] == a + b[..|b| - 1];
      ScoreAddsUp(log, a, b[..|b| - 1], c, stats);
    }
  }

  /** A chunk that is no longer and contains every term as often scores at least as high, and higher if
      it contains one more often. */
  lemma {:induction false} DenserScoresHigher(log: Log, terms: seq<string>, c: Chunk, d: Chunk, stats: Stats)
    requires PositiveAboveOne(log) && 0 < c.tokenCount <= d.tokenCount && stats.docCount > 0
    requires forall t :: t in stats.docFreq ==> stats.docFreq[t] <= stats.docCount
    requires forall t :: t in terms ==> GetOr(c.termFreqs, t, 0) >= GetOr(d.termFreqs, t, 0)
    ensures Score(log, terms, c, stats) >= Score(log, terms, d, stats)
    ensures (exists t :: t in terms && GetOr(c.termFreqs, t, 0) > GetOr(d.termFreqs, t, 0) >= 0) ==>
              Score(log, terms, c, stats) > Score(log, terms, d, stats)
  {
    if terms != [] {
      var init, last := terms[..|terms| - 1], terms[|terms| - 1];
      DenserScoresHigher(log, init, c, d, stats);
      assert terms == init + [last];
      DenserTerm(log, last, c, d, stats);
    }
  }

  lemma DenserTerm(log: Log, t: string, c: Chunk, d: Chunk, stats: Stats)
    requires PositiveAboveOne(log) && 0 < c.tokenCount <= d.tokenCount
    requires GetOr(stats.docFreq, t, 0) <= stats.docCount
    requires GetOr(c.termFreqs, t, 0) >= GetOr(d.termFreqs, t, 0)
    ensures TermScore(log, t, c, stats) >= TermScore(log, t, d, stats)
    ensures GetOr(c.termFreqs, t, 0) > GetOr(d.termFreqs, t, 0) >= 0 ==>
              TermScore(log, t, c, stats) > TermScore(log, t, d, stats)
  {
    var more, fewer, df := GetOr(c.termFreqs, t, 0), GetOr(d.termFreqs, t, 0), GetOr(stats.docFreq, t, 0);
    if fewer > 0 {
      DenserWeighsMore(log, more, c.tokenCount, fewer, d.tokenCount, stats, df);
    } else if more > 0 {
      WeightPositive(log, more, c.tokenCount, stats, df);
    }
  }

  // ------------------------------------------------------------------- statistics

  /** The positions of the chunks that contain a term, in order. */
  function Postings(chunks: seq<Chunk>, term: string): seq<nat> {
    if chunks == [] then []
    else
      var n := |chunks| - 1;
      Postings(chunks[..n], term) + (if term in chunks[n].termFreqs then [n] else [])
  }

  lemma {:induction false} PostingsAre(chunks: seq<Chunk>, term: string, i: nat)
    ensures i in Postings(chunks, term) <==> i < |chunks| && term in chunks[i].termFreqs
  {
    if chunks != [] {
      PostingsAre(chunks[..|chunks| - 1], term, i);
    }
  }

  ghost predicate Ascending(positions: seq<nat>, bound: nat) {
    && (forall j, k :: 0 <= j < k < |positions| ==> positions[j] < positions[k])
    && (forall j :: 0 <= j < |positions| ==> positions[j] < bound)
  }

  lemma AscendingMore(positions: seq<nat>, n: nat)
    requires Ascending(positions, n)
    ensures Ascending(positions, n + 1) && Ascending(positions + [n], n + 1)
  {
  }

  /** Each position is listed once. */
  lemma {:induction false} PostingsAscend(chunks: seq<Chunk>, term: string)
    ensures Ascending(Postings(chunks, term), |chunks|)
  {
    if chunks != [] {
      var n := |chunks| - 1;
      PostingsAscend(chunks[..n], term);
      AscendingMore(Postings(chunks[..n], term), n);
      assert Postings(chunks[..n], term) + [] == Postings(chunks[..n], term);
    }
  }

  function TotalLength(chunks: seq<Chunk>): int {
    if chunks == [] then 0 else TotalLength(chunks[..|chunks| - 1]) + chunks[|chunks| - 1].tokenCount
  }

  /** Every chunk counts with its own length. */
  lemma {:induction false} LengthsAddUp(a: seq<Chunk>, c: Chunk, b: seq<Chunk>)
    ensures TotalLength(a + [c] + b) == TotalLength(a) + c.tokenCount + TotalLength(b)
    decreases |b|
  {
    if b == [] {
      assert a + [c] + b == a + [c] && (a + [c])[..|a|] == a;
    } else {
      assert (a + [c] + b)[..|a| + |b|] == a + [c] + b[..|b| - 1];
      LengthsAddUp(a, c, b[..|b| - 1]);
    }
  }

  /** `m` counts, for every term that occurs, the chunks it occurs in. */
  ghost predicate CountsTerms(m: map<string, nat>, chunks: seq<Chunk>) {
    forall t :: GetOr(m, t, 0) == |Postings(chunks, t)| && (t in m <==> Postings(chunks, t) != [])
  }

  /** The loop over the terms of one chunk, in whatever order. */
  method CountChunk(m: map<string, nat>, chunk: Chunk, ghost before: seq<Chunk>) returns (counted: map<string, nat>)
    requires CountsTerms(m, before)
    ensures CountsTerms(counted, before + [chunk])
  {
    counted := m;
    var terms := chunk.termFreqs.Keys;
    while terms != {}
      invariant terms <= chunk.termFreqs.Keys
      invariant OneMoreOf(chunk.termFreqs.Keys - terms, m, counted)
    {
      var term :| term in terms;
      counted := counted[term := GetOr(counted, term, 0) + 1];
      terms := terms - {term};
    }
    CountsTermsMore(m, counted, before, chunk);
  }

  /** `counted` is `m` with one more for each of these terms. */
  ghost predicate OneMoreOf(terms: set<string>, m: map<string, nat>, counted: map<string, nat>) {
    forall t ::
      && (t in counted <==> t in m || t in terms)
      && GetOr(counted, t, 0) == GetOr(m, t, 0) + (if t in terms then 1 else 0)
  }

  lemma CountsTermsMore(m: map<string, nat>, counted: map<string, nat>, before: seq<Chunk>, chunk: Chunk)
    requires CountsTerms(m, before) && OneMoreOf(chunk.termFreqs.Keys, m, counted)
    ensures CountsTerms(counted, before + [chunk])
  {
    forall t
      ensures GetOr(counted, t, 0) == |Postings(before + [chunk], t)|
      ensures t in counted <==> Postings(before + [chunk], t) != []
    {
      PostingsMore(before, chunk, t);
    }
  }

  lemma PostingsMore(before: seq<Chunk>, chunk: Chunk, t: string)
    ensures Postings(before + [chunk], t) == Postings(before, t) + (if t in chunk.termFreqs then [|before|] else [])
  {
    assert (before + [chunk])[..|before|] == before;
  }

  /** `_recompute_stats`; `now` is the time stamp. */
  method RecomputeStats(chunks: seq<Chunk>, now: string) returns (stats: Stats)
    ensures Fresh(stats, chunks)
    ensures stats.updatedAt == if chunks == [] then "" else now
  {
    if chunks == [] {
      return Stats(0, 0.0, map[], "");
    }
    var totalLen, df := 0, map[];
    for i := 0 to |chunks|
      invariant totalLen == TotalLength(chunks[..i]) && CountsTerms(df, chunks[..i])
    {
      assert chunks[..i + 1] == chunks[..i] + [chunks[i]];
      totalLen := totalLen + chunks[i].tokenCount;
      df := CountChunk(df, chunks[i], chunks[..i]);
    }
    assert chunks[..|chunks|] == chunks;
    stats := Stats(|chunks|, totalLen as real / |chunks| as real, df, now);
  }

  /** The statistics are those of the chunks. */
  ghost predicate Fresh(stats: Stats, chunks: seq<Chunk>) {
    && stats.docCount == |chunks| && CountsTerms(stats.docFreq, chunks)
    && stats.avgDocLen == if chunks == [] then 0.0 else TotalLength(chunks) as real / |chunks| as real
  }

  lemma {:induction false} PostingsFit(chunks: seq<Chunk>, t: string)
    ensures |Postings(chunks, t)| <= |chunks|
  {
    if chunks != [] {
      PostingsFit(chunks[..|chunks| - 1], t);
    }
  }

  /** So with recomputed statistics no matching chunk is lost to a score of zero or below. */
  lemma FreshStatsScoreEveryMatch(log: Log, terms: seq<string>, chunks: seq<Chunk>, stats: Stats, i: nat)
    requires PositiveAboveOne(log) && Fresh(stats, chunks) && i < |chunks| && chunks[i].tokenCount > 0
    ensures Score(log, terms, chunks[i], stats) > 0.0 <==>
            exists t :: t in terms && GetOr(chunks[i].termFreqs, t, 0) > 0
  {
    forall t | t in stats.docFreq ensures stats.docFreq[t] <= stats.docCount {
      PostingsFit(chunks, t);
      assert GetOr(stats.docFreq, t, 0) == |Postings(chunks, t)|;
    }
    PositiveExactlyOnAMatch(log, terms, chunks[i], stats);
  }
}
