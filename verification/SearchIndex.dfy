/** The inverted index and its bounded-heap search (backend/app/modules/knowledge/search_cache.py). */
module SearchIndex {
  import opened Bm25
  import opened Tokens
  import opened TopK

  type Revision = string

  /** A number in decimal digits. */
  function Decimal(n: nat): (digits: string)
    ensures digits != "" && forall i :: 0 <= i < |digits| ==> '0' <= digits[i] <= '9'
  {
    var last := ['0' + (n % 10) as char];
    if n < 10 then last else Decimal(n / 10) + last
  }

  /** `f"{doc_count}:{updated_at}"`. */
  function RevisionOf(stats: Stats): Revision {
    Decimal(stats.docCount) + ":" + stats.updatedAt
  }

  lemma {:induction false} DecimalTells(m: nat, n: nat)
    requires Decimal(m) == Decimal(n)
    ensures m == n
  {
    var a, b := Decimal(m), Decimal(n);
    assert a[|a| - 1] == '0' + (m % 10) as char && b[|b| - 1] == '0' + (n % 10) as char;
    if m >= 10 && n >= 10 {
      assert a[..|a| - 1] == Decimal(m / 10) && b[..|b| - 1] == Decimal(n / 10);
      DecimalTells(m / 10, n / 10);
    }
  }

  /** Statistics that differ in the number of documents or in their time stamp have different revisions. */
  lemma RevisionTells(a: Stats, b: Stats)
    ensures RevisionOf(a) == RevisionOf(b) <==> a.docCount == b.docCount && a.updatedAt == b.updatedAt
  {
    var x, y, m, n := RevisionOf(a), RevisionOf(b), Decimal(a.docCount), Decimal(b.docCount);
    if x == y {
      assert x[|m|] == ':' && y[|n|] == ':';
      assert x[..|m|] == m && y[..|n|] == n;
      DecimalTells(a.docCount, b.docCount);
      assert x[|m| + 1..] == a.updatedAt && y[|n| + 1..] == b.updatedAt;
    }
  }

  /** The number of documents falls back to the number of rows. */
  function EffectiveStats(stats: Stats, rows: nat): Stats {
    stats.(docCount := if stats.docCount == 0 then rows else stats.docCount)
  }

  /** `stats.docCount` is the number of documents the scores use. */
  datatype Index = Index(
    kbName: string, revision: Revision, stats: Stats, chunks: seq<Chunk>, inverted: map<string, seq<nat>>)

  /** The posting lists are those of the chunks, and no chunk occurs twice (they are table rows). */
  ghost predicate WellBuilt(ix: Index) {
    Inverts(ix.inverted, ix.chunks) && Distinct(ix.chunks)
  }

  ghost predicate Inverts(inverted: map<string, seq<nat>>, chunks: seq<Chunk>) {
    forall t :: GetOr(inverted, t, []) == Postings(chunks, t)
  }

  // ------------------------------------------------------------------------ building

  method PostChunk(inverted0: map<string, seq<nat>>, chunk: Chunk, idx: nat, ghost before: seq<Chunk>)
    returns (inverted: map<string, seq<nat>>)
    requires Inverts(inverted0, before) && idx == |before|
    ensures Inverts(inverted, before + [chunk])
  {
    inverted := inverted0;
    var terms := chunk.termFreqs.Keys;
    while terms != {}
      invariant terms <= chunk.termFreqs.Keys
      invariant forall t :: GetOr(inverted, t, []) ==
                  GetOr(inverted0, t, []) + (if t in chunk.termFreqs && t !in terms then [idx] else [])
    {
      var term :| term in terms;
      inverted := inverted[term := GetOr(inverted, term, []) + [idx]];
      terms := terms - {term};
    }
    forall t ensures GetOr(inverted, t, []) == Postings(before + [chunk], t) {
      PostingsMore(before, chunk, t);
    }
  }

  /** The part of `load_index` that builds the index from the rows. */
  method BuildIndex(kbName: string, revision: Revision, stats: Stats, rows: seq<Chunk>) returns (ix: Index)
    requires Distinct(rows)
    ensures WellBuilt(ix) && ix.kbName == kbName && ix.revision == revision && ix.chunks == rows
    ensures ix.stats == EffectiveStats(stats, |rows|) == stats.(docCount := ix.stats.docCount)
    ensures ix.stats.docCount == 0 <==> stats.docCount == 0 && rows == []
    ensures stats.docCount > 0 || Fresh(stats, rows) ==> ix.stats == stats
  {
    var inverted := map[];
    for idx := 0 to |rows|
      invariant Inverts(inverted, rows[..idx])
    {
      assert rows[..idx + 1] == rows[..idx] + [rows[idx]];
      inverted := PostChunk(inverted, rows[idx], idx, rows[..idx]);
    }
    assert rows[..|rows|] == rows;
    ix := Index(kbName, revision, EffectiveStats(stats, |rows|), rows, inverted);
  }

  /** With fresh statistics the posting list of every term is as long as its document frequency says. */
  lemma PostingsMatchDocFreq(ix: Index, t: string)
    requires WellBuilt(ix) && CountsTerms(ix.stats.docFreq, ix.chunks)
    ensures |GetOr(ix.inverted, t, [])| == GetOr(ix.stats.docFreq, t, 0)
    ensures forall i :: i in GetOr(ix.inverted, t, []) <==> 0 <= i < |ix.chunks| && t in ix.chunks[i].termFreqs
  {
    assert GetOr(ix.inverted, t, []) == Postings(ix.chunks, t);
    assert GetOr(ix.stats.docFreq, t, 0) == |Postings(ix.chunks, t)|;
    forall i: nat ensures i in Postings(ix.chunks, t) <==> i < |ix.chunks| && t in ix.chunks[i].termFreqs {
      PostingsAre(ix.chunks, t, i);
    }
  }

  // ---------------------------------------------------------------------- candidates

  ghost predicate Mentions(c: Chunk, terms: seq<string>) {
    exists t :: t in terms && t in c.termFreqs
  }

  method Candidates(ix: Index, terms: seq<string>) returns (candidates: set<nat>)
    requires WellBuilt(ix)
    ensures forall i: nat :: i in candidates <==> i < |ix.chunks| && Mentions(ix.chunks[i], terms)
  {
    candidates := {};
    for k := 0 to |terms|
      invariant forall i: nat :: i in candidates <==> i < |ix.chunks| && Mentions(ix.chunks[i], terms[..k])
    {
      var postings := GetOr(ix.inverted, terms[k], []);
      ghost var before := candidates;
      for j := 0 to |postings|
        invariant forall i: nat :: i in candidates <==> i in before || i in postings[..j]
      {
        candidates := candidates + {postings[j]};
      }
      assert postings[..|postings|] == postings == Postings(ix.chunks, terms[k]);
      assert terms[..k + 1] == terms[..k] + [terms[k]];
      forall i: nat ensures i in candidates <==> i < |ix.chunks| && Mentions(ix.chunks[i], terms[..k + 1]) {
        PostingsAre(ix.chunks, terms[k], i);
        MentionsMore(ix, terms[..k], terms[k], i);
      }
    }
    assert terms[..|terms|] == terms;
  }

  lemma MentionsMore(ix: Index, terms: seq<string>, t: string, i: nat)
    ensures i < |ix.chunks| ==>
              (Mentions(ix.chunks[i], terms + [t]) <==> Mentions(ix.chunks[i], terms) || t in ix.chunks[i].termFreqs)
  {
    assert forall x :: x in terms + [t] <==> x in terms || x == t;
  }

  // --------------------------------------------------------------------- the heap

  /** A heap entry; the heap compares scores first and positions second. */
  datatype Entry = Entry(score: real, idx: nat)

  predicate Before(a: Entry, b: Entry) {
    a.score < b.score || (a.score == b.score && a.idx <= b.idx)
  }

  predicate Least(top: Entry, heap: set<Entry>) {
    top in heap && forall e :: e in heap ==> Before(top, e)
  }

  lemma {:induction false} LeastExists(heap: set<Entry>) returns (top: Entry)
    requires heap != {}
    ensures Least(top, heap)
  {
    var x :| x in heap;
    var rest := heap - {x};
    assert heap == rest + {x};
    top := x;
    if rest != {} {
      var least := LeastExists(rest);
      top := if Before(least, x) then least else x;
    }
  }

  /** `heap[0]`. */
  method Top(heap: set<Entry>) returns (top: Entry)
    requires heap != {}
    ensures Least(top, heap)
  {
    var _ := LeastExists(heap);
    top :| top in heap && Least(top, heap);
  }

  predicate NotAbove(e: Entry, f: Entry) {
    e.score <= f.score
  }

  /** `best` is `limit` of the highest entries of `all`, or all of them. */
  ghost predicate Keeps(all: set<Entry>, best: set<Entry>, limit: nat) {
    && best <= all
    && |best| == (if |all| < limit then |all| else limit)
    && (forall e, f :: e in all && e !in best && f in best ==> NotAbove(e, f))
  }

  lemma AllKept(all: set<Entry>, best: set<Entry>, limit: nat)
    requires Keeps(all, best, limit) && |best| < limit
    ensures best == all
  {
    if e :| e in all && e !in best {
      SubsetSize(best + {e}, all);
    }
  }

  /** One entry pushed, or exchanged for the least one, or passed over. */
  method Offer(best: set<Entry>, e: Entry, limit: nat, ghost all: set<Entry>) returns (best': set<Entry>)
    requires limit > 0 && Keeps(all, best, limit) && e !in all
    ensures Keeps(all + {e}, best', limit)
  {
    if |best| < limit {
      AllKept(all, best, limit);
      best' := best + {e};
    } else {
      var top := Top(best);
      SubsetSize(best, all);
      if e.score > top.score {
        best' := best - {top} + {e};
        forall x, f | x in all + {e} && x !in best' && f in best' ensures NotAbove(x, f) {
          if x == top {
            assert f == e || Before(top, f);
          } else {
            assert NotAbove(x, top);
            assert f == e || NotAbove(x, f);
          }
        }
      } else {
        best' := best;
        forall f | f in best ensures NotAbove(e, f) {
          assert Before(top, f);
        }
      }
    }
  }

  ghost function EntryOf(s: Scorer, chunks: seq<Chunk>, i: nat): Entry
    requires i < |chunks|
  {
    Entry(s.Of(chunks[i]), i)
  }

  /** The positive entries at the given positions. */
  ghost function Entries(s: Scorer, chunks: seq<Chunk>, at: set<nat>): set<Entry> {
    set i | i in at && i < |chunks| && s.Of(chunks[i]) > 0.0 :: EntryOf(s, chunks, i)
  }

  method BestEntries(ix: Index, s: Scorer, candidates: set<nat>, limit: nat) returns (best: set<Entry>)
    requires limit > 0 && s.stats == ix.stats && forall i :: i in candidates ==> i < |ix.chunks|
    ensures Keeps(Entries(s, ix.chunks, candidates), best, limit)
  {
    best := {};
    var todo := candidates;
    assert Entries(s, ix.chunks, candidates - todo) == {};
    while todo != {}
      invariant todo <= candidates
      invariant Keeps(Entries(s, ix.chunks, candidates - todo), best, limit)
    {
      var idx :| idx in todo;
      EntriesStep(s, ix.chunks, candidates, todo, idx);
      var score := Bm25Score(s.log, s.terms, ix.chunks[idx], ix.stats);
      ghost var before := Entries(s, ix.chunks, candidates - todo);
      todo := todo - {idx};
      if score <= 0.0 {
        continue;
      }
      best := Offer(best, Entry(score, idx), limit, before);
    }
    assert candidates - todo == candidates;
  }

  lemma EntriesStep(s: Scorer, chunks: seq<Chunk>, candidates: set<nat>, todo: set<nat>, idx: nat)
    requires todo <= candidates && idx in todo && idx < |chunks|
    ensures Entries(s, chunks, candidates - (todo - {idx})) ==
            Entries(s, chunks, candidates - todo) + (if s.Of(chunks[idx]) > 0.0 then {EntryOf(s, chunks, idx)} else {})
    ensures EntryOf(s, chunks, idx) !in Entries(s, chunks, candidates - todo)
  {
    assert candidates - (todo - {idx}) == (candidates - todo) + {idx};
    EntriesMore(s, chunks, candidates - todo, idx);
  }

  lemma EntriesMore(s: Scorer, chunks: seq<Chunk>, done: set<nat>, idx: nat)
    requires idx < |chunks| && idx !in done
    ensures Entries(s, chunks, done + {idx}) ==
            Entries(s, chunks, done) + (if s.Of(chunks[idx]) > 0.0 then {EntryOf(s, chunks, idx)} else {})
    ensures EntryOf(s, chunks, idx) !in Entries(s, chunks, done)
  {
  }

  // ------------------------------------------------------------------- the answer

  predicate IsHighest(e: Entry, entries: set<Entry>) {
    e in entries && forall f :: f in entries ==> NotAbove(f, e)
  }

  lemma {:induction false} HighestExists(entries: set<Entry>) returns (e: Entry)
    requires entries != {}
    ensures IsHighest(e, entries)
  {
    var x :| x in entries;
    var rest := entries - {x};
    assert entries == rest + {x};
    e := x;
    if rest != {} {
      var highest := HighestExists(rest);
      e := if NotAbove(x, highest) then highest else x;
    }
  }

  ghost function ChunksAt(chunks: seq<Chunk>, entries: set<Entry>): set<Chunk> {
    set e | e in entries && e.idx < |chunks| :: chunks[e.idx]
  }

  ghost predicate Positioned(s: Scorer, chunks: seq<Chunk>, entries: set<Entry>) {
    forall e :: e in entries ==> e.idx < |chunks| && e == EntryOf(s, chunks, e.idx)
  }

  /** `hits` are the given entries, best first. */
  ghost predicate Lists(s: Scorer, chunks: seq<Chunk>, hits: seq<Hit>, entries: set<Entry>) {
    && Scored(s, hits) && Descending(hits) && Unique(hits)
    && ChunksOf(hits) == ChunksAt(chunks, entries) && |hits| == |entries|
  }

  ghost predicate NoneBelow(hits: seq<Hit>, e: Entry) {
    forall i :: 0 <= i < |hits| ==> e.score <= hits[i].score
  }

  method Highest(entries: set<Entry>) returns (e: Entry)
    requires entries != {}
    ensures IsHighest(e, entries)
  {
    var _ := HighestExists(entries);
    e :| e in entries && IsHighest(e, entries);
  }

  /** `sorted(best, key=score, reverse=True)` turned into hits; equal scores come in any order. */
  method RankEntries(ix: Index, s: Scorer, best: set<Entry>) returns (hits: seq<Hit>)
    requires Positioned(s, ix.chunks, best) && Distinct(ix.chunks)
    ensures Lists(s, ix.chunks, hits, best)
  {
    hits := [];
    var todo := best;
    ListsNothing(s, ix.chunks, best);
    while todo != {}
      invariant todo <= best
      invariant Lists(s, ix.chunks, hits, best - todo) && NoneAboveAny(hits, todo)
    {
      var e := Highest(todo);
      var h := Hit(ix.chunks[e.idx], e.score);
      ListsMore(s, ix.chunks, best, hits, todo, e);
      RestBelow(hits, h, todo, e);
      hits := hits + [h];
      todo := todo - {e};
    }
    assert best - todo == best;
  }

  lemma ListsNothing(s: Scorer, chunks: seq<Chunk>, best: set<Entry>)
    ensures Lists(s, chunks, [], best - best) && NoneAboveAny([], best)
  {
    assert best - best == {};
    assert ChunksAt(chunks, {}) == ChunksOf([]);
  }

  ghost predicate NoneAboveAny(hits: seq<Hit>, todo: set<Entry>) {
    forall e :: e in todo ==> NoneBelow(hits, e)
  }

  lemma RestBelow(hits: seq<Hit>, h: Hit, todo: set<Entry>, e: Entry)
    requires NoneAboveAny(hits, todo) && IsHighest(e, todo) && h.score == e.score
    ensures NoneAboveAny(hits + [h], todo - {e})
  {
    forall f | f in todo - {e} ensures NoneBelow(hits + [h], f) {
      assert NotAbove(f, e) && NoneBelow(hits, f);
    }
  }

  lemma NewChunk(chunks: seq<Chunk>, s: Scorer, best: set<Entry>, done: set<Entry>, e: Entry)
    requires Positioned(s, chunks, best) && Distinct(chunks) && done <= best && e in best && e !in done
    ensures chunks[e.idx] !in ChunksAt(chunks, done)
    ensures ChunksAt(chunks, done + {e}) == ChunksAt(chunks, done) + {chunks[e.idx]}
  {
    forall f | f in done ensures chunks[f.idx] != chunks[e.idx] {
      assert f != e && f == EntryOf(s, chunks, f.idx);
      assert OtherRow(chunks, f.idx, e.idx);
    }
  }

  lemma ListsMore(s: Scorer, chunks: seq<Chunk>, best: set<Entry>, hits: seq<Hit>, todo: set<Entry>, e: Entry)
    requires Positioned(s, chunks, best) && Distinct(chunks) && todo <= best && e in todo
    requires Lists(s, chunks, hits, best - todo) && NoneAboveAny(hits, todo)
    ensures Lists(s, chunks, hits + [Hit(chunks[e.idx], e.score)], best - (todo - {e}))
  {
    var done := best - todo;
    assert best - (todo - {e}) == done + {e};
    assert NoneBelow(hits, e);
    NewChunk(chunks, s, best, done, e);
    AppendHit(s, hits, Hit(chunks[e.idx], e.score));
  }

  lemma AppendHit(s: Scorer, hits: seq<Hit>, h: Hit)
    requires Scored(s, hits) && Descending(hits) && Unique(hits)
    requires h.score == s.Of(h.chunk) && h.chunk !in ChunksOf(hits)
    requires forall i :: 0 <= i < |hits| ==> h.score <= hits[i].score
    ensures Scored(s, hits + [h]) && Descending(hits + [h]) && Unique(hits + [h])
    ensures ChunksOf(hits + [h]) == ChunksOf(hits) + {h.chunk}
  {
    assert forall x :: x in hits + [h] <==> x in hits || x == h;
    UniqueMore(hits, h);
    DescendingMore(hits, h);
    ChunksOfMembers(hits, hits + [h], h);
  }

  method Search(ix: Index, a: Alphabet, log: Log, query: string, topK: int) returns (hits: seq<Hit>)
    requires WellBuilt(ix)
    ensures var s := Scorer(log, Tokenize(a, query), ix.stats);
            && Ranked(s, Rows(ix.chunks), Limit(topK), hits)
            && |hits| == HitCount(|Positive(s, Rows(ix.chunks))|, topK)
  {
    var terms := Tokenize(a, query);
    var s := Scorer(log, terms, ix.stats);
    if terms == [] || ix.stats.docCount <= 0 {
      NothingScores(s, ix.chunks);
      return [];
    }
    var candidates := Candidates(ix, terms);
    CandidatesSuffice(s, ix.chunks, candidates);
    if candidates == {} {
      EmptyIsRanked(s, ix.chunks, candidates);
      return [];
    }
    var best := BestEntries(ix, s, candidates, Limit(topK));
    hits := RankEntries(ix, s, best);
    HitsAreRanked(s, ix.chunks, candidates, best, Limit(topK), hits);
  }

  /** No terms, or no documents: no chunk scores. */
  lemma NothingScores(s: Scorer, chunks: seq<Chunk>)
    requires s.terms == [] || s.stats.docCount <= 0
    ensures Positive(s, Rows(chunks)) == {}
  {
  }

  ghost predicate Covers(s: Scorer, chunks: seq<Chunk>, candidates: set<nat>) {
    && (forall i :: i in candidates ==> i < |chunks|)
    && (forall i: nat :: i < |chunks| && s.Of(chunks[i]) > 0.0 ==> i in candidates)
  }

  /** A chunk that mentions no term scores nothing, so the candidates are enough. */
  lemma CandidatesSuffice(s: Scorer, chunks: seq<Chunk>, candidates: set<nat>)
    requires forall i: nat :: i in candidates <==> i < |chunks| && Mentions(chunks[i], s.terms)
    ensures Covers(s, chunks, candidates)
  {
    forall i: nat | i < |chunks| && s.Of(chunks[i]) > 0.0 ensures i in candidates {
      if !Mentions(chunks[i], s.terms) {
        NoTermNoScore(s.log, s.terms, chunks[i], s.stats);
      }
    }
  }

  lemma EmptyIsRanked(s: Scorer, chunks: seq<Chunk>, candidates: set<nat>)
    requires Covers(s, chunks, candidates) && candidates == {}
    ensures Positive(s, Rows(chunks)) == {}
  {
    forall c | c in Rows(chunks) ensures s.Of(c) <= 0.0 {
      var i: nat :| i < |chunks| && chunks[i] == c;
      assert i !in candidates;
    }
  }

  lemma {:induction false} ImageSize(chunks: seq<Chunk>, s: Scorer, entries: set<Entry>)
    requires Distinct(chunks) && Positioned(s, chunks, entries)
    ensures |ChunksAt(chunks, entries)| == |entries|
    decreases |entries|
  {
    if entries != {} {
      var e :| e in entries;
      var rest := entries - {e};
      ImageSize(chunks, s, rest);
      NewChunk(chunks, s, entries, rest, e);
      assert rest + {e} == entries;
    }
  }

  lemma EntriesArePositive(s: Scorer, chunks: seq<Chunk>, candidates: set<nat>)
    requires Covers(s, chunks, candidates)
    ensures ChunksAt(chunks, Entries(s, chunks, candidates)) == Positive(s, Rows(chunks))
  {
    forall c | c in Positive(s, Rows(chunks)) ensures c in ChunksAt(chunks, Entries(s, chunks, candidates)) {
      var i: nat :| i < |chunks| && chunks[i] == c;
      assert EntryOf(s, chunks, i) in Entries(s, chunks, candidates);
    }
  }

  lemma HitsAreRanked(s: Scorer, chunks: seq<Chunk>, candidates: set<nat>, best: set<Entry>, limit: nat, hits: seq<Hit>)
    requires Distinct(chunks) && Covers(s, chunks, candidates)
    requires Keeps(Entries(s, chunks, candidates), best, limit)
    requires Lists(s, chunks, hits, best)
    ensures Ranked(s, Rows(chunks), limit, hits)
  {
    var all := Entries(s, chunks, candidates);
    EntriesArePositive(s, chunks, candidates);
    ImageSize(chunks, s, all);
    forall i | 0 <= i < |hits| ensures hits[i].chunk in ChunksAt(chunks, best) {
      assert hits[i] in hits;
      assert hits[i].chunk in ChunksOf(hits);
    }
    forall i | 0 <= i < |hits| ensures hits[i].chunk in Rows(chunks) && hits[i].score == s.Of(hits[i].chunk) > 0.0 {
      assert hits[i] in hits;
      assert hits[i].chunk in ChunksAt(chunks, all);
    }
    forall c, i: nat | c in Positive(s, Rows(chunks)) && c !in ChunksOf(hits) && i < |hits|
      ensures Below(s, c, hits, i)
    {
      assert hits[i] in hits;
      LeftOutIsNotAbove(s, chunks, all, best, c, hits[i].chunk);
    }
  }

  lemma LeftOutIsNotAbove(s: Scorer, chunks: seq<Chunk>, all: set<Entry>, best: set<Entry>, c: Chunk, d: Chunk)
    requires Positioned(s, chunks, all) && best <= all
    requires forall e, f :: e in all && e !in best && f in best ==> NotAbove(e, f)
    requires c in ChunksAt(chunks, all) && c !in ChunksAt(chunks, best) && d in ChunksAt(chunks, best)
    ensures s.Of(c) <= s.Of(d)
  {
    var e :| e in all && e.idx < |chunks| && chunks[e.idx] == c;
    var f :| f in best && f.idx < |chunks| && chunks[f.idx] == d;
    assert NotAbove(e, f);
  }
}
