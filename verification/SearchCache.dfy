/**
 * The per-process search cache: an index per knowledge base and an LRU cache of answers
 * (backend/app/modules/knowledge/search_cache.py).
 */
module SearchCache {
  import opened Bm25
  import opened Lru
  import opened Options
  import opened SearchIndex
  import opened Text
  import opened Tokens
  import opened TopK

  /** A knowledge base as a request finds it in the database. */
  datatype KnowledgeBase = KnowledgeBase(name: string, stats: Stats, rows: seq<Chunk>)

  /** What a revision of a knowledge base holds, in no particular order. */
  datatype Corpus = Corpus(stats: Stats, rows: set<Chunk>)

  datatype Key = Key(kbName: string, revision: Revision, query: string, topK: int)

  datatype Slot = Slot(storedAt: real, hits: seq<Hit>)

  /** The content of every revision of every knowledge base, and the text and number functions. */
  datatype Library = Library(alphabet: Alphabet, log: Log, content: (string, Revision) -> Corpus)

  /** The request sees the content of its revision: a revision determines the content. */
  ghost predicate Current(lib: Library, kb: KnowledgeBase) {
    && Distinct(kb.rows)
    && lib.content(kb.name, RevisionOf(kb.stats)) == Corpus(EffectiveStats(kb.stats, |kb.rows|), Rows(kb.rows))
  }

  /** A right answer for a key: a ranking of the content of the key's revision. */
  ghost predicate Right(lib: Library, key: Key, hits: seq<Hit>) {
    var corpus := lib.content(key.kbName, key.revision);
    Ranked(Scorer(lib.log, Tokenize(lib.alphabet, key.query), corpus.stats), corpus.rows, Limit(key.topK), hits)
  }

  /** An index of the content of its revision. */
  ghost predicate Faithful(lib: Library, ix: Index) {
    WellBuilt(ix) && lib.content(ix.kbName, ix.revision) == Corpus(ix.stats, Rows(ix.chunks))
  }

  /** The keys of one knowledge base. */
  function AnswersOf(order: seq<Key>, kbName: string): set<Key> {
    set k | k in order && k.kbName == kbName
  }

  lemma DropTwice(order: seq<Key>, k: Key)
    ensures Touch(Drop(order, {k}), k) == Touch(order, k)
  {
    DropMembers(order, {k});
    DropMembers(Drop(order, {k}), {k});
  }

  ghost predicate InStep(order: seq<Key>, slots: map<Key, Slot>) {
    NoDup(order) && forall k :: k in order <==> k in slots
  }

  ghost predicate AllRight(lib: Library, slots: map<Key, Slot>) {
    forall k :: k in slots ==> Right(lib, k, slots[k].hits)
  }

  ghost predicate Within(fewer: map<Key, Slot>, slots: map<Key, Slot>) {
    forall k :: k in fewer ==> k in slots && fewer[k] == slots[k]
  }

  lemma FewerAreRight(lib: Library, fewer: map<Key, Slot>, slots: map<Key, Slot>)
    requires AllRight(lib, slots) && Within(fewer, slots)
    ensures AllRight(lib, fewer)
  {
  }

  lemma WithoutOldest(order: seq<Key>, slots: map<Key, Slot>, n: nat)
    requires InStep(order, slots) && |order| > n
    ensures InStep(order[1..], slots - {order[0]}) && LastN(order[1..], n) == LastN(order, n)
  {
    assert order == [order[0]] + order[1..];
    NoDupSplit([order[0]], order[1..]);
  }

  lemma Forgets(lib: Library, n: nat, order: seq<Key>, slots: map<Key, Slot>, history: seq<Event<Key>>, key: Key)
    requires Consistent(lib, n, order, slots, history)
    ensures Consistent(lib, n, Drop(order, {key}), slots - {key}, history + [Dropped({key})])
  {
    DropMembers(order, {key});
    OneMoreEvent(n, history, Dropped({key}));
    FewerAreRight(lib, slots - {key}, slots);
  }

  lemma ForgetsNothing(order: seq<Key>, slots: map<Key, Slot>, key: Key)
    requires InStep(order, slots) && key !in slots
    ensures Drop(order, {key}) == order && slots - {key} == slots
  {
    DropMembers(order, {key});
  }

  lemma Renews(lib: Library, n: nat, order: seq<Key>, slots: map<Key, Slot>, history: seq<Event<Key>>, key: Key)
    requires Consistent(lib, n, order, slots, history) && key in slots
    ensures Touch(order, key) == Use(order, n, key)
    ensures Consistent(lib, n, Touch(order, key), slots, history + [Used(key)])
  {
    TouchMembers(order, key);
    OneMoreEvent(n, history, Used(key));
  }

  lemma DropsBase(lib: Library, n: nat, order: seq<Key>, slots: map<Key, Slot>, history: seq<Event<Key>>,
                  kbName: string, rest: map<Key, Slot>)
    requires Consistent(lib, n, order, slots, history)
    requires rest == map k | k in slots && k.kbName != kbName :: slots[k]
    ensures Within(rest, slots)
    ensures var keys := AnswersOf(order, kbName); Consistent(lib, n, Drop(order, keys), rest, history + [Dropped(keys)])
  {
    DropMembers(order, AnswersOf(order, kbName));
    OneMoreEvent(n, history, Dropped(AnswersOf(order, kbName)));
    FewerAreRight(lib, rest, slots);
  }

  lemma Stores(lib: Library, n: nat, order: seq<Key>, slots: map<Key, Slot>, history: seq<Event<Key>>, key: Key,
               slot: Slot)
    requires Consistent(lib, n, order, slots, history) && Right(lib, key, slot.hits)
    ensures InStep(Touch(order, key), slots[key := slot]) && AllRight(lib, slots[key := slot])
    ensures Cache(n, history + [Used(key)]) == Use(order, n, key)
  {
    TouchMembers(order, key);
    OneMoreEvent(n, history, Used(key));
  }

  lemma OneMoreEvent(n: nat, history: seq<Event<Key>>, event: Event<Key>)
    ensures Cache(n, history + [event]) == After(n, Cache(n, history), event)
  {
    assert (history + [event])[..|history|] == history;
  }

  /** The eviction loop of `_set_cached_search`: `popitem(last=False)` until the size fits. */
  method Evict(order0: seq<Key>, slots0: map<Key, Slot>, maxEntries: nat)
    returns (order: seq<Key>, slots: map<Key, Slot>)
    requires InStep(order0, slots0)
    ensures InStep(order, slots) && order == LastN(order0, maxEntries) && Within(slots, slots0)
  {
    order, slots := order0, slots0;
    while |order| > maxEntries
      invariant LastN(order, maxEntries) == LastN(order0, maxEntries)
      invariant InStep(order, slots) && Within(slots, slots0)
      decreases |order|
    {
      WithoutOldest(order, slots, maxEntries);
      slots := slots - {order[0]};
      order := order[1..];
    }
  }

  /** The OrderedDict is the cache its history leaves, and holds right answers. */
  ghost predicate Consistent(lib: Library, n: nat, order: seq<Key>, slots: map<Key, Slot>, history: seq<Event<Key>>) {
    && |order| <= n && InStep(order, slots) && AllRight(lib, slots) && order == Cache(n, history)
  }

  ghost predicate RemoteRight(lib: Library, remote: map<Key, seq<Hit>>) {
    forall k :: k in remote ==> Right(lib, k, remote[k])
  }

  ghost predicate AllFaithful(lib: Library, indexes: map<string, Index>) {
    forall name :: name in indexes ==> indexes[name].kbName == name && Faithful(lib, indexes[name])
  }

  class KnowledgeSearchCache {
    const ttlSeconds: real
    const maxEntries: nat
    const lib: Library

    var indexes: map<string, Index>
    /** The OrderedDict: its keys from least to most recently used, and what they map to. */
    var order: seq<Key>
    var slots: map<Key, Slot>
    /** The answers in Redis, shared with other processes. */
    var remote: map<Key, seq<Hit>>
    /** What has happened to the OrderedDict. */
    ghost var history: seq<Event<Key>>

    ghost predicate Valid()
      reads this
    {
      && Consistent(lib, maxEntries, order, slots, history)
      && RemoteRight(lib, remote) && AllFaithful(lib, indexes)
    }

    constructor (lib: Library, ttlSeconds: real, maxEntries: nat)
      ensures Valid() && this.lib == lib && this.ttlSeconds == ttlSeconds && this.maxEntries == maxEntries
      ensures order == [] && indexes == map[] && remote == map[] && history == []
    {
      this.lib, this.ttlSeconds, this.maxEntries := lib, ttlSeconds, maxEntries;
      indexes, order, slots, remote, history := map[], [], map[], map[], [];
    }

    /** Drops the answers of one knowledge base. */
    method DropAnswers(kbName: string)
      requires Valid()
      modifies this`order, this`slots, this`history
      ensures Valid() && order == Drop(old(order), AnswersOf(old(order), kbName))
      ensures history == old(history) + [Dropped(AnswersOf(old(order), kbName))]
      ensures Within(slots, old(slots)) && forall k :: k in slots <==> k in old(slots) && k.kbName != kbName
    {
      var rest := map k | k in slots && k.kbName != kbName :: slots[k];
      DropsBase(lib, maxEntries, order, slots, history, kbName, rest);
      history := history + [Dropped(AnswersOf(order, kbName))];
      slots := rest;
      order := Drop(order, AnswersOf(order, kbName));
    }

    method InvalidateKb(kbName: string)
      requires Valid()
      modifies this`indexes, this`order, this`slots, this`history
      ensures Valid() && indexes == old(indexes) - {kbName}
      ensures order == Drop(old(order), AnswersOf(old(order), kbName)) && Within(slots, old(slots))
      ensures forall k :: k in slots <==> k in old(slots) && k.kbName != kbName
      ensures history == old(history) + [Dropped(AnswersOf(old(order), kbName))]
    {
      indexes := indexes - {kbName};
      DropAnswers(kbName);
    }

    /** The index of the current revision, if it is loaded. */
    function Loaded(kb: KnowledgeBase): Option<Index>
      reads this`indexes
    {
      var cached := Get(indexes, kb.name);
      if cached.Some? && cached.value.revision == RevisionOf(kb.stats) then cached else None
    }

    /** The order after `load_index`: without the index, the answers of the base are dropped. */
    ghost function OrderAfterLoad(kb: KnowledgeBase): seq<Key>
      reads this`indexes, this`order
    {
      if Loaded(kb).Some? then order else Drop(order, AnswersOf(order, kb.name))
    }

    /** `load_index` up to the query for the rows ... */
    method FindIndex(kb: KnowledgeBase) returns (found: Option<Index>)
      requires Valid()
      modifies this`order, this`slots, this`history
      ensures Valid() && found == Loaded(kb)
      ensures order == old(OrderAfterLoad(kb)) && Within(slots, old(slots))
    {
      found := Loaded(kb);
      if found.None? {
        DropAnswers(kb.name);
      }
    }

    /** ... and from there on: the index is built from the rows and replaces the old one. */
    method StoreIndex(kb: KnowledgeBase) returns (ix: Index)
      requires Valid() && Current(lib, kb)
      modifies this`indexes
      ensures Valid() && Faithful(lib, ix) && ix.kbName == kb.name && ix.revision == RevisionOf(kb.stats)
      ensures indexes == old(indexes)[kb.name := ix]
    {
      ix := BuildIndex(kb.name, RevisionOf(kb.stats), kb.stats, kb.rows);
      indexes := indexes[kb.name := ix];
    }

    method LoadIndex(kb: KnowledgeBase) returns (ix: Index)
      requires Valid() && Current(lib, kb)
      modifies this`indexes, this`order, this`slots, this`history
      ensures Valid() && Faithful(lib, ix) && ix.kbName == kb.name && ix.revision == RevisionOf(kb.stats)
      ensures indexes == old(indexes)[kb.name := ix] && (old(Loaded(kb)).Some? ==> ix == old(Loaded(kb)).value)
      ensures order == old(OrderAfterLoad(kb)) && Within(slots, old(slots))
    {
      var found := FindIndex(kb);
      if found.Some? {
        return found.value;
      }
      ix := StoreIndex(kb);
    }

    /** `pop` of one key. */
    method Forget(key: Key)
      requires Valid()
      modifies this`order, this`slots, this`history
      ensures Valid() && order == Drop(old(order), {key}) && slots == old(slots) - {key}
      ensures history == old(history) + [Dropped({key})]
    {
      Forgets(lib, maxEntries, order, slots, history, key);
      slots := slots - {key};
      order := Drop(order, {key});
      history := history + [Dropped({key})];
    }

    /** `move_to_end` of a key that is there. */
    method Renew(key: Key)
      requires Valid() && key in slots
      modifies this`order, this`history
      ensures Valid() && order == Touch(old(order), key) == Use(old(order), maxEntries, key)
      ensures history == old(history) + [Used(key)]
    {
      Renews(lib, maxEntries, order, slots, history, key);
      order := Touch(order, key);
      history := history + [Used(key)];
    }

    /** A hit is a right answer, no older than the time to live, and becomes the most recent. */
    method GetCachedSearch(key: Key, now: real) returns (found: Option<seq<Hit>>)
      requires Valid()
      modifies this`order, this`slots, this`history
      ensures Valid()
      ensures var slot := Get(old(slots), key);
              if slot.Some? && now - slot.value.storedAt <= ttlSeconds
              then found == Some(slot.value.hits) && slots == old(slots) && order == Touch(old(order), key)
              else found == None && slots == old(slots) - {key} && order == Drop(old(order), {key})
      ensures found.Some? ==> Right(lib, key, found.value) && order == Use(old(order), maxEntries, key)
      ensures history == old(history) +
                         if found.Some? then [Used(key)] else if key in old(slots) then [Dropped({key})] else []
    {
      var entry := Get(slots, key);
      if entry.None? {
        ForgetsNothing(order, slots, key);
        return None;
      }
      if now - entry.value.storedAt > ttlSeconds {
        Forget(key);
        return None;
      }
      Renew(key);
      return Some(entry.value.hits);
    }

    /** Storing an answer evicts the least recently used ones beyond `maxEntries`. */
    method SetCachedSearch(key: Key, hits: seq<Hit>, now: real)
      requires Valid() && Right(lib, key, hits)
      modifies this`order, this`slots, this`history
      ensures Valid() && order == Use(old(order), maxEntries, key)
      ensures history == old(history) + [Used(key)]
      ensures Within(slots, old(slots)[key := Slot(now, hits)])
    {
      Stores(lib, maxEntries, order, slots, history, key, Slot(now, hits));
      var stored := slots[key := Slot(now, hits)];
      var kept;
      order, kept := Evict(Touch(order, key), stored, maxEntries);
      FewerAreRight(lib, kept, stored);
      slots := kept;
      history := history + [Used(key)];
    }

    /** `_get_redis_search_cache`. */
    method AskRemote(key: Key) returns (fetched: Option<seq<Hit>>)
      requires Valid()
      ensures fetched == Get(remote, key) && (fetched.Some? ==> Right(lib, key, fetched.value))
    {
      fetched := Get(remote, key);
    }

    /** After the reply from Redis: its answer, or a search of the index; either is stored. */
    method Settle(ix: Index, key: Key, fetched: Option<seq<Hit>>, now: real) returns (hits: seq<Hit>)
      requires Valid() && Faithful(lib, ix) && key.kbName == ix.kbName && key.revision == ix.revision
      requires fetched.Some? ==> Right(lib, key, fetched.value)
      modifies this`order, this`slots, this`history
      ensures Valid() && Right(lib, key, hits) && order == Use(old(order), maxEntries, key)
      ensures fetched.Some? ==> hits == fetched.value
    {
      if fetched.Some? {
        hits := fetched.value;
      } else {
        hits := Search(ix, lib.alphabet, lib.log, key.query, key.topK);
      }
      SetCachedSearch(key, hits, now);
    }

    /** `_set_redis_search_cache` - of this or another process. */
    method Publish(key: Key, hits: seq<Hit>)
      requires Valid() && Right(lib, key, hits)
      modifies this`remote
      ensures Valid() && remote == old(remote)[key := hits]
    {
      remote := remote[key := hits];
    }

    /** Redis loses keys by expiry and invalidation. */
    method RemoteLoses(keys: set<Key>)
      requires Valid()
      modifies this`remote
      ensures Valid() && remote == old(remote) - keys
    {
      remote := remote - keys;
    }

    /** `search_indexed`, as one request that nothing interrupts: a right answer, whose key is now the
        most recently used one. */
    method SearchIndexed(kb: KnowledgeBase, query: string, topK: int, now: real) returns (hits: seq<Hit>)
      requires Valid() && Current(lib, kb)
      modifies this
      ensures Valid()
      ensures var key := KeyOf(lib, kb, query, topK);
              && Right(lib, key, hits)
              && if key.query == "" then hits == [] && order == old(order) && indexes == old(indexes)
                 else
                   && order == Use(old(OrderAfterLoad(kb)), maxEntries, key)
                   && (remote == old(remote) || remote == old(remote)[key := hits])
                   && (key !in old(slots) ==> Get(remote, key) == Some(hits))
    {
      var key := KeyOf(lib, kb, query, topK);
      if key.query == "" {
        NothingIsRight(lib, key);
        return [];
      }
      var ix := LoadIndex(kb);
      hits := LookUp(ix, key, now);
    }

    /** `search_indexed` with its index: the cache, Redis or the index has the answer. */
    method LookUp(ix: Index, key: Key, now: real) returns (hits: seq<Hit>)
      requires Valid() && Faithful(lib, ix) && key.kbName == ix.kbName && key.revision == ix.revision
      modifies this`order, this`slots, this`history, this`remote
      ensures Valid() && Right(lib, key, hits) && order == Use(old(order), maxEntries, key)
      ensures remote == old(remote) || remote == old(remote)[key := hits]
      ensures key !in old(slots) ==> Get(remote, key) == Some(hits)
    {
      DropTwice(order, key);
      var cached := GetCachedSearch(key, now);
      if cached.Some? {
        return cached.value;
      }
      var fetched := AskRemote(key);
      hits := Settle(ix, key, fetched, now);
      if fetched.None? {
        Publish(key, hits);
      }
    }
  }

  function KeyOf(lib: Library, kb: KnowledgeBase, query: string, topK: int): Key {
    Key(kb.name, RevisionOf(kb.stats), Join(" ", Tokenize(lib.alphabet, query)), topK)
  }

  /** For the empty query the empty answer is right. */
  lemma NothingIsRight(lib: Library, key: Key)
    requires key.query == ""
    ensures Right(lib, key, [])
    ensures forall hits :: Right(lib, key, hits) ==> hits == []
  {
    assert Tokenize(lib.alphabet, "") == [];
    var corpus := lib.content(key.kbName, key.revision);
    assert Positive(Scorer(lib.log, [], corpus.stats), corpus.rows) == {};
  }

  /** The cached query is as good as the query itself, when its lowered words are words. */
  lemma NormalizedQueryIsTheQuery(lib: Library, settled: char -> bool, query: string, key: Key, hits: seq<Hit>)
    requires Lowercases(lib.alphabet, settled)
    requires forall i :: 0 <= i < |Tokenize(lib.alphabet, query)| ==>
             IsWordText(lib.alphabet, Tokenize(lib.alphabet, query)[i])
    requires key.query == Join(" ", Tokenize(lib.alphabet, query)) && Right(lib, key, hits)
    ensures Right(lib, key.(query := query), hits)
    ensures key.query == "" ==> hits == []
  {
    TokenizeNormalForm(lib.alphabet, settled, query);
    if key.query == "" {
      NothingIsRight(lib, key);
    }
  }

  // ------------------------------------------------------------ interleaved requests

  /**
   * What happens to the cache. A request is named by its place in the script. It goes one section
   * further with every `Advance`: from one suspension point of `search_indexed` to the next, or less.
   * Meanwhile bases are invalidated, and Redis loses answers and gets those of other processes.
   */
  datatype Op =
    | Ask(kb: KnowledgeBase, query: string, topK: int)
    | Advance(request: nat, now: real)
    | Invalidate(kbName: string)
    | Lose(keys: set<Key>)
    | Gain(key: Key, hits: seq<Hit>)

  /**
   * - `Loading`: the rows are being read;
   * - `Ready`: it has an index, and looks into the cache next;
   * - `Missed`: not in the cache, so it asks Redis;
   * - `Fetched`: Redis has replied;
   * - `Settled`: the answer of its own search is stored, and is being sent to Redis.
   */
  datatype Request =
    | Loading(key: Key, kb: KnowledgeBase)
    | Ready(key: Key, ix: Index)
    | Missed(key: Key, ix: Index)
    | Fetched(key: Key, ix: Index, fetched: Option<seq<Hit>>)
    | Settled(key: Key, hits: seq<Hit>)
  {
    /** How many sections are left, at most. */
    function Left(): nat {
      match this
      case Loading(_, _) => 5
      case Ready(_, _) => 4
      case Missed(_, _) => 3
      case Fetched(_, _, _) => 2
      case Settled(_, _) => 1
    }
  }

  ghost predicate IndexOf(lib: Library, key: Key, ix: Index) {
    Faithful(lib, ix) && key.kbName == ix.kbName && key.revision == ix.revision
  }

  ghost predicate Waiting(lib: Library, r: Request) {
    match r
    case Loading(key, kb) => Current(lib, kb) && key.kbName == kb.name && key.revision == RevisionOf(kb.stats)
    case Ready(key, ix) => IndexOf(lib, key, ix)
    case Missed(key, ix) => IndexOf(lib, key, ix)
    case Fetched(key, ix, fetched) => IndexOf(lib, key, ix) && (fetched.Some? ==> Right(lib, key, fetched.value))
    case Settled(key, hits) => Right(lib, key, hits)
  }

  /** One section: a request gets its answer, or comes closer to it. */
  method Proceed(cache: KnowledgeSearchCache, r: Request, now: real) returns (r': Request, answer: Option<seq<Hit>>)
    requires cache.Valid() && Waiting(cache.lib, r)
    modifies cache
    ensures cache.Valid()
    ensures if answer.Some? then Right(cache.lib, r.key, answer.value)
            else Waiting(cache.lib, r') && r'.key == r.key && r'.Left() < r.Left()
    ensures r.Settled? ==> answer == Some(r.hits)
    ensures r.Fetched? && r.fetched.Some? ==> answer == r.fetched
  {
    r', answer := r, None;
    match r
    case Loading(key, kb) =>
      var ix := cache.StoreIndex(kb);
      r' := Ready(key, ix);
    case Ready(key, ix) =>
      answer := cache.GetCachedSearch(key, now);
      r' := Missed(key, ix);
    case Missed(key, ix) =>
      var fetched := cache.AskRemote(key);
      r' := Fetched(key, ix, fetched);
    case Fetched(key, ix, fetched) =>
      var hits := cache.Settle(ix, key, fetched, now);
      r' := Settled(key, hits);
      answer := if fetched.Some? then Some(hits) else None;
    case Settled(key, hits) =>
      cache.Publish(key, hits);
      answer := Some(hits);
  }

  /** A new request; the empty query is answered at once. */
  method Begin(cache: KnowledgeSearchCache, kb: KnowledgeBase, query: string, topK: int)
    returns (r: Request, answer: Option<seq<Hit>>)
    requires cache.Valid() && Current(cache.lib, kb)
    modifies cache
    ensures cache.Valid()
    ensures var key := KeyOf(cache.lib, kb, query, topK);
            if key.query == "" then answer.Some? && Right(cache.lib, key, answer.value)
            else answer.None? && Waiting(cache.lib, r) && r.key == key
  {
    var key := KeyOf(cache.lib, kb, query, topK);
    r, answer := Loading(key, kb), None;
    if key.query == "" {
      NothingIsRight(cache.lib, key);
      answer := Some([]);
      return;
    }
    var found := cache.FindIndex(kb);
    if found.Some? {
      r := Ready(key, found.value);
    }
  }

  /** How often the script advances its i-th request in its first `n` operations. */
  ghost function Advances(script: seq<Op>, i: nat, n: nat): nat
    requires n <= |script|
  {
    if n <= i + 1 then 0
    else Advances(script, i, n - 1) + (if script[n - 1].Advance? && script[n - 1].request == i then 1 else 0)
  }

  ghost function Asked(lib: Library, op: Op): Key
    requires op.Ask?
  {
    KeyOf(lib, op.kb, op.query, op.topK)
  }

  ghost predicate InHand(lib: Library, script: seq<Op>, n: nat, i: nat, r: Request)
    requires n <= |script|
  {
    && i < n && script[i].Ask? && Waiting(lib, r) && r.key == Asked(lib, script[i]) && r.key.query != ""
    && r.Left() + Advances(script, i, n) <= 5
  }

  /** The i-th operation is a request, and `hits` is a right answer to it. */
  ghost predicate AnswerTo(lib: Library, script: seq<Op>, i: nat, hits: seq<Hit>) {
    i < |script| && script[i].Ask? && Right(lib, Asked(lib, script[i]), hits)
  }

  /** The i-th operation is no request made so far, or it is either in hand or answered. */
  ghost predicate Fine(lib: Library, script: seq<Op>, n: nat, pending: map<nat, Request>, answers: map<nat, seq<Hit>>,
                       i: nat)
    requires n <= |script|
  {
    && (i in pending ==> InHand(lib, script, n, i, pending[i]) && i !in answers)
    && (i in answers ==> i < n && AnswerTo(lib, script, i, answers[i]))
    && (i < n && script[i].Ask? ==> i in pending || i in answers)
  }

  ghost predicate Served(lib: Library, script: seq<Op>, n: nat, pending: map<nat, Request>, answers: map<nat, seq<Hit>>)
    requires n <= |script|
  {
    forall i: nat :: Fine(lib, script, n, pending, answers, i)
  }

  /** An operation does not concern the other requests. */
  lemma OthersAreFine(lib: Library, script: seq<Op>, n: nat, pending: map<nat, Request>, answers: map<nat, seq<Hit>>,
                      i: nat)
    requires n < |script| && Fine(lib, script, n, pending, answers, i)
    requires !(script[n].Ask? && i == n) && !(script[n].Advance? && script[n].request == i && i in pending)
    ensures Fine(lib, script, n + 1, pending, answers, i)
  {
  }

  lemma NobodyServed(lib: Library, script: seq<Op>, n: nat, pending: map<nat, Request>, answers: map<nat, seq<Hit>>)
    requires n < |script| && Served(lib, script, n, pending, answers) && !script[n].Ask?
    requires script[n].Advance? ==> script[n].request !in pending
    ensures Served(lib, script, n + 1, pending, answers)
  {
    var next := n + 1;
    forall j: nat ensures Fine(lib, script, next, pending, answers, j) {
      assert Fine(lib, script, n, pending, answers, j);
      OthersAreFine(lib, script, n, pending, answers, j);
    }
  }

  /** Operation `n` makes request `i`, or advances it. */
  ghost predicate Concerns(script: seq<Op>, n: nat, pending: map<nat, Request>, i: nat)
    requires n < |script|
  {
    if script[n].Ask? then i == n else script[n].Advance? && i == script[n].request && i in pending
  }

  lemma OneAdvanced(lib: Library, script: seq<Op>, n: nat, pending: map<nat, Request>, answers: map<nat, seq<Hit>>,
                    i: nat, r: Request)
    requires n < |script| && Served(lib, script, n, pending, answers) && Concerns(script, n, pending, i)
    requires InHand(lib, script, n + 1, i, r)
    ensures Served(lib, script, n + 1, pending[i := r], answers)
  {
    var next, pending' := n + 1, pending[i := r];
    forall j: nat ensures Fine(lib, script, next, pending', answers, j) {
      assert Fine(lib, script, n, pending, answers, j);
      if j != i {
        OthersAreFine(lib, script, n, pending, answers, j);
      }
    }
  }

  lemma OneAnswered(lib: Library, script: seq<Op>, n: nat, pending: map<nat, Request>, answers: map<nat, seq<Hit>>,
                    i: nat, hits: seq<Hit>)
    requires n < |script| && Served(lib, script, n, pending, answers) && Concerns(script, n, pending, i)
    requires AnswerTo(lib, script, i, hits)
    ensures Served(lib, script, n + 1, pending - {i}, answers[i := hits])
  {
    var next, pending', answers' := n + 1, pending - {i}, answers[i := hits];
    forall j: nat ensures Fine(lib, script, next, pending', answers', j) {
      assert Fine(lib, script, n, pending, answers, j);
      if j != i {
        OthersAreFine(lib, script, n, pending, answers, j);
      }
    }
  }

  /** What the environment does. */
  method Disturb(cache: KnowledgeSearchCache, op: Op)
    requires cache.Valid() && (op.Gain? ==> Right(cache.lib, op.key, op.hits))
    modifies cache
    ensures cache.Valid()
  {
    match op
    case Invalidate(kbName) => cache.InvalidateKb(kbName);
    case Lose(keys) => cache.RemoteLoses(keys);
    case Gain(key, hits) => cache.Publish(key, hits);
    case _ =>
  }

  method ServeOne(cache: KnowledgeSearchCache, script: seq<Op>, n: nat, pending: map<nat, Request>,
                ghost answers: map<nat, seq<Hit>>)
    returns (id: nat, r: Request, answer: Option<seq<Hit>>)
    requires n < |script| && cache.Valid() && Served(cache.lib, script, n, pending, answers)
    requires script[n].Ask? || (script[n].Advance? && script[n].request in pending)
    requires script[n].Ask? ==> Current(cache.lib, script[n].kb)
    modifies cache
    ensures cache.Valid() && Concerns(script, n, pending, id)
    ensures if answer.Some? then AnswerTo(cache.lib, script, id, answer.value)
            else InHand(cache.lib, script, n + 1, id, r)
  {
    if script[n].Ask? {
      id := n;
      r, answer := Begin(cache, script[n].kb, script[n].query, script[n].topK);
    } else {
      id := script[n].request;
      assert Fine(cache.lib, script, n, pending, answers, id);
      r, answer := Proceed(cache, pending[id], script[n].now);
    }
  }

  /** The n-th operation. */
  method Perform(cache: KnowledgeSearchCache, script: seq<Op>, n: nat, pending: map<nat, Request>,
                 answers: map<nat, seq<Hit>>)
    returns (answers': map<nat, seq<Hit>>, pending': map<nat, Request>)
    requires n < |script| && cache.Valid() && Served(cache.lib, script, n, pending, answers)
    requires script[n].Ask? ==> Current(cache.lib, script[n].kb)
    requires script[n].Gain? ==> Right(cache.lib, script[n].key, script[n].hits)
    modifies cache
    ensures cache.Valid() && Served(cache.lib, script, n + 1, pending', answers')
  {
    answers', pending' := answers, pending;
    var op := script[n];
    if !op.Ask? && !(op.Advance? && op.request in pending) {
      Disturb(cache, op);
      NobodyServed(cache.lib, script, n, pending, answers);
      return;
    }
    var id, r, answer := ServeOne(cache, script, n, pending, answers);
    match answer
    case None =>
      OneAdvanced(cache.lib, script, n, pending, answers, id, r);
      pending' := pending[id := r];
    case Some(hits) =>
      OneAnswered(cache.lib, script, n, pending, answers, id, hits);
      answers', pending' := answers[id := hits], pending - {id};
  }

  /** What a request is entitled to, said without keys, revisions and caches: of the rows it found, as
      many as it asked for, ranked by their scores for its own query. */
  ghost predicate Deserves(lib: Library, kb: KnowledgeBase, query: string, topK: int, hits: seq<Hit>) {
    var s := Scorer(lib.log, Tokenize(lib.alphabet, query), EffectiveStats(kb.stats, |kb.rows|));
    && Ranked(s, Rows(kb.rows), |hits|, hits)
    && |hits| == HitCount(|Positive(s, Rows(kb.rows))|, topK)
  }

  /** A right answer for the key of a request is what the request is entitled to, if the lowered words of
      its query are words. */
  lemma RightIsDeserved(lib: Library, settled: char -> bool, kb: KnowledgeBase, query: string, topK: int,
                        hits: seq<Hit>)
    requires Right(lib, KeyOf(lib, kb, query, topK), hits) && Current(lib, kb) && Lowercases(lib.alphabet, settled)
    requires forall k :: 0 <= k < |Tokenize(lib.alphabet, query)| ==>
             IsWordText(lib.alphabet, Tokenize(lib.alphabet, query)[k])
    ensures Deserves(lib, kb, query, topK, hits)
  {
    NormalizedQueryIsTheQuery(lib, settled, query, KeyOf(lib, kb, query, topK), hits);
  }

  /** So whatever happened between a request and its answer, the request gets that. */
  lemma AnswerIsForTheRequest(lib: Library, settled: char -> bool, script: seq<Op>, i: nat, hits: seq<Hit>)
    requires AnswerTo(lib, script, i, hits) && Current(lib, script[i].kb) && Lowercases(lib.alphabet, settled)
    requires forall k :: 0 <= k < |Tokenize(lib.alphabet, script[i].query)| ==>
             IsWordText(lib.alphabet, Tokenize(lib.alphabet, script[i].query)[k])
    ensures Deserves(lib, script[i].kb, script[i].query, script[i].topK, hits)
  {
    RightIsDeserved(lib, settled, script[i].kb, script[i].query, script[i].topK, hits);
  }

  /** At the end of the script. */
  lemma AllServed(lib: Library, script: seq<Op>, pending: map<nat, Request>, answers: map<nat, seq<Hit>>, i: nat)
    requires Served(lib, script, |script|, pending, answers)
    ensures i in answers ==> AnswerTo(lib, script, i, answers[i])
    ensures i < |script| && script[i].Ask? ==>
              Advances(script, i, |script|) >= 5 || Asked(lib, script[i]).query == "" ==> i in answers
  {
    assert Fine(lib, script, |script|, pending, answers, i);
    if i in pending {
      assert pending[i].Left() >= 1;
    }
  }

  /** In every interleaving of searches, reloads, invalidations and the passing of time: only requests
      get answers, each one a right answer for the revision the request found; and every request
      that goes on for five sections - or asks for nothing - has its answer. */
  method Serve(cache: KnowledgeSearchCache, script: seq<Op>) returns (answers: map<nat, seq<Hit>>)
    requires cache.Valid()
    requires forall i :: 0 <= i < |script| && script[i].Ask? ==> Current(cache.lib, script[i].kb)
    requires forall i :: 0 <= i < |script| && script[i].Gain? ==> Right(cache.lib, script[i].key, script[i].hits)
    modifies cache
    ensures cache.Valid()
    ensures forall i :: i in answers ==> AnswerTo(cache.lib, script, i, answers[i])
    ensures forall i: nat :: i < |script| && script[i].Ask? && Advances(script, i, |script|) >= 5 ==> i in answers
    ensures forall i: nat :: i < |script| && script[i].Ask? && Asked(cache.lib, script[i]).query == "" ==> i in answers
  {
    answers := map[];
    var pending: map<nat, Request> := map[];
    assert forall i: nat :: Fine(cache.lib, script, 0, pending, answers, i);
    for n := 0 to |script|
      invariant cache.Valid() && Served(cache.lib, script, n, pending, answers)
    {
      answers, pending := Perform(cache, script, n, pending, answers);
    }
    forall i: nat
      ensures i in answers ==> AnswerTo(cache.lib, script, i, answers[i])
      ensures i < |script| && script[i].Ask? && Advances(script, i, |script|) >= 5 ==> i in answers
      ensures i < |script| && script[i].Ask? && Asked(cache.lib, script[i]).query == "" ==> i in answers
    {
      AllServed(cache.lib, script, pending, answers, i);
    }
  }
}
