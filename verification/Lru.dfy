/** Recency order: what a least-recently-used cache of bounded size holds. */
module Lru {

  /** The order without some of its keys. */
  function Drop<K(==)>(order: seq<K>, keys: set<K>): seq<K> {
    if order == [] then []
    else Drop(order[..|order| - 1], keys) + (if order[|order| - 1] in keys then [] else [order[|order| - 1]])
  }

  /** `move_to_end`, or an insertion at the end. */
  function Touch<K(==)>(order: seq<K>, k: K): seq<K> {
    Drop(order, {k}) + [k]
  }

  function LastN<K>(order: seq<K>, n: nat): seq<K> {
    if |order| <= n then order else order[|order| - n..]
  }

  /** One use of a key in a cache of `n` entries. */
  function Use<K(==)>(order: seq<K>, n: nat, k: K): seq<K> {
    LastN(Touch(order, k), n)
  }

  ghost predicate NoDup<K(!new)>(order: seq<K>) {
    order == [] || (order[|order| - 1] !in order[..|order| - 1] && NoDup(order[..|order| - 1]))
  }

  lemma {:induction false} DropMembers<K(!new)>(order: seq<K>, keys: set<K>)
    ensures forall x :: x in Drop(order, keys) <==> x in order && x !in keys
    ensures |Drop(order, keys)| <= |order|
    ensures (forall x :: x in order ==> x !in keys) ==> Drop(order, keys) == order
    ensures NoDup(order) ==> NoDup(Drop(order, keys))
  {
    if order != [] {
      var init, last := order[..|order| - 1], order[|order| - 1];
      assert order == init + [last];
      DropMembers(init, keys);
      var rest := Drop(init, keys);
      assert (rest + [last])[..|rest|] == rest;
      assert rest + [] == rest;
    }
  }

  lemma {:induction false} DropOne<K(!new)>(order: seq<K>, k: K)
    requires NoDup(order)
    ensures |Drop(order, {k})| == if k in order then |order| - 1 else |order|
  {
    if order != [] {
      var init, last := order[..|order| - 1], order[|order| - 1];
      assert order == init + [last];
      DropOne(init, k);
    }
  }

  lemma TouchMembers<K(!new)>(order: seq<K>, k: K)
    requires NoDup(order)
    ensures forall x :: x in Touch(order, k) <==> x in order || x == k
    ensures NoDup(Touch(order, k))
    ensures |Touch(order, k)| == if k in order then |order| else |order| + 1
  {
    DropMembers(order, {k});
    DropOne(order, k);
    assert Touch(order, k)[..|Drop(order, {k})|] == Drop(order, {k});
  }

  lemma {:induction false} DropConcat<K>(a: seq<K>, b: seq<K>, keys: set<K>)
    ensures Drop(a + b, keys) == Drop(a, keys) + Drop(b, keys)
    decreases |b|
  {
    if b == [] {
      assert a + b == a;
    } else {
      assert (a + b)[..|a + b| - 1] == a + b[..|b| - 1];
      DropConcat(a, b[..|b| - 1], keys);
    }
  }

  lemma {:induction false} NoDupSplit<K(!new)>(a: seq<K>, b: seq<K>)
    requires NoDup(a + b)
    ensures NoDup(a) && NoDup(b) && forall x :: x in a ==> x !in b
    decreases |b|
  {
    if b == [] {
      assert a + b == a;
    } else {
      var init, last := b[..|b| - 1], b[|b| - 1];
      assert (a + b)[..|a + b| - 1] == a + init;
      assert b == init + [last];
      NoDupSplit(a, init);
    }
  }

  /** Forgetting all but the last `n` keys before a use or after it is the same. */
  lemma UseAfterForgetting<K(!new)>(order: seq<K>, n: nat, k: K)
    requires NoDup(order)
    ensures Use(LastN(order, n), n, k) == Use(order, n, k)
  {
    if |order| > n {
      var a, l := order[..|order| - n], order[|order| - n..];
      assert order == a + l;
      NoDupSplit(a, l);
      ForgettingAPrefix(a, l, n, k);
    }
  }

  lemma ForgettingAPrefix<K(!new)>(a: seq<K>, l: seq<K>, n: nat, k: K)
    requires NoDup(l) && |l| == n
    ensures Use(l, n, k) == Use(a + l, n, k)
  {
    TouchSplits(a, l, k);
    TouchMembers(l, k);
    SameTail(Drop(a, {k}), Touch(l, k), n);
  }

  lemma TouchSplits<K(!new)>(a: seq<K>, l: seq<K>, k: K)
    ensures Touch(a + l, k) == Drop(a, {k}) + Touch(l, k)
  {
    DropConcat(a, l, {k});
  }

  lemma SameTail<K>(a: seq<K>, b: seq<K>, n: nat)
    requires |b| >= n
    ensures LastN(a + b, n) == LastN(b, n)
  {
  }

  // ---------------------------------------------------------------- whole histories

  /** A cache is used - looked into with success, or written - and loses keys by expiry and invalidation. */
  datatype Event<K> = Used(key: K) | Dropped(keys: set<K>)

  /** All keys used and not dropped since, by last use. */
  function Recency<K(==)>(history: seq<Event<K>>): seq<K> {
    if history == [] then []
    else
      var before := Recency(history[..|history| - 1]);
      match history[|history| - 1]
      case Used(k) => Touch(before, k)
      case Dropped(keys) => Drop(before, keys)
  }

  /** The cache of `n` entries after this history. */
  function Cache<K(==)>(n: nat, history: seq<Event<K>>): seq<K> {
    if history == [] then [] else After(n, Cache(n, history[..|history| - 1]), history[|history| - 1])
  }

  function After<K(==)>(n: nat, order: seq<K>, event: Event<K>): seq<K> {
    match event
    case Used(k) => Use(order, n, k)
    case Dropped(keys) => Drop(order, keys)
  }

  /** The keys used since the last use of `k`, and not dropped since. */
  function Newer<K(==)>(history: seq<Event<K>>, k: K): set<K> {
    if history == [] then {}
    else
      var before := Newer(history[..|history| - 1], k);
      match history[|history| - 1]
      case Used(j) => if j == k then {} else before + {j}
      case Dropped(keys) => before - keys
  }

  lemma {:induction false} CacheFits<K(!new)>(n: nat, history: seq<Event<K>>)
    ensures NoDup(Cache(n, history)) && |Cache(n, history)| <= n
  {
    if history != [] {
      var before := Cache(n, history[..|history| - 1]);
      CacheFits(n, history[..|history| - 1]);
      match history[|history| - 1]
      case Used(k) =>
        TouchMembers(before, k);
        LastNSplits(Touch(before, k), n);
        NoDupSplit(Forgotten(Touch(before, k), n), LastN(Touch(before, k), n));
      case Dropped(keys) =>
        DropMembers(before, keys);
    }
  }

  function Forgotten<K>(order: seq<K>, n: nat): seq<K> {
    if |order| <= n then [] else order[..|order| - n]
  }

  lemma LastNSplits<K>(order: seq<K>, n: nat)
    ensures order == Forgotten(order, n) + LastN(order, n)
  {
  }

  /** What is held is, at any time, the most recently used keys among all that were not dropped, in
      order of use: nothing held is older than anything forgotten. */
  lemma {:induction false} CacheIsRecent<K(!new)>(n: nat, history: seq<Event<K>>) returns (forgotten: seq<K>)
    ensures Recency(history) == forgotten + Cache(n, history)
    ensures |Cache(n, history)| <= n
  {
    CacheFits(n, history);
    forgotten := [];
    if history != [] {
      var before := Cache(n, history[..|history| - 1]);
      var older := CacheIsRecent(n, history[..|history| - 1]);
      match history[|history| - 1]
      case Used(k) =>
        TouchSplits(older, before, k);
        LastNSplits(Touch(before, k), n);
        forgotten := Drop(older, {k}) + Forgotten(Touch(before, k), n);
      case Dropped(keys) =>
        DropConcat(older, before, keys);
        forgotten := Drop(older, keys);
    }
  }

  lemma {:induction false} RecencyNoDup<K(!new)>(history: seq<Event<K>>)
    ensures NoDup(Recency(history))
  {
    if history != [] {
      var before := Recency(history[..|history| - 1]);
      RecencyNoDup(history[..|history| - 1]);
      match history[|history| - 1]
      case Used(k) => TouchMembers(before, k);
      case Dropped(keys) => DropMembers(before, keys);
    }
  }

  /** As long as nothing is dropped, evicting one by one keeps exactly the `n` most recently used keys. */
  lemma {:induction false} CacheIsRecency<K(!new)>(n: nat, history: seq<Event<K>>)
    requires forall i :: 0 <= i < |history| ==> history[i].Used?
    ensures Cache(n, history) == LastN(Recency(history), n)
  {
    if history != [] {
      var init := history[..|history| - 1];
      CacheIsRecency(n, init);
      RecencyNoDup(init);
      UseAfterForgetting(Recency(init), n, history[|history| - 1].key);
    }
  }

  lemma UseMembers<K(!new)>(before: seq<K>, n: nat, j: K)
    requires NoDup(before)
    ensures forall x :: x in Use(before, n, j) ==> x in before || x == j
  {
    TouchMembers(before, j);
    LastNSplits(Touch(before, j), n);
  }

  lemma KeepsOther<K>(k: K, keys: set<K>)
    requires k !in keys
    ensures Drop([k], keys) == [k]
  {
    assert [k][..0] == [];
  }

  lemma DropAround<K>(a: seq<K>, k: K, b: seq<K>, keys: set<K>)
    requires k !in keys
    ensures Drop(a + [k] + b, keys) == Drop(a, keys) + [k] + Drop(b, keys)
  {
    DropConcat(a + [k], b, keys);
    DropConcat(a, [k], keys);
    KeepsOther(k, keys);
  }

  lemma TouchAround<K>(j: K, a: seq<K>, k: K, b: seq<K>)
    requires j != k
    ensures Touch(a + [k] + b, j) == Drop(a, {j}) + [k] + Touch(b, j)
  {
    DropAround(a, k, b, {j});
  }

  /** Where a key is that survives a use of another one. */
  lemma UseAround<K(!new)>(n: nat, j: K, a: seq<K>, k: K, b: seq<K>) returns (older: seq<K>)
    requires NoDup(a + [k] + b) && j != k && k in Use(a + [k] + b, n, j)
    ensures Use(a + [k] + b, n, j) == older + [k] + Touch(b, j)
  {
    var touched := Touch(a + [k] + b, j);
    TouchMembers(a + [k] + b, j);
    TouchAround(j, a, k, b);
    LastNSplits(touched, n);
    older := SuffixSplits(Forgotten(touched, n), LastN(touched, n), Drop(a, {j}), k, Touch(b, j));
  }

  lemma InFront<K>(front: seq<K>, back: seq<K>, i: nat)
    requires i < |front + back|
    ensures i < |front| ==> (front + back)[i] in front
  {
  }

  /** A key that is in the last part of an order without duplicates is at its place there. */
  lemma SuffixSplits<K(!new)>(front: seq<K>, back: seq<K>, a: seq<K>, k: K, b: seq<K>) returns (older: seq<K>)
    requires NoDup(front + back) && front + back == a + [k] + b && k in back
    ensures back == older + [k] + b
  {
    NoDupSplit(front, back);
    assert (a + [k] + b)[|a|] == k;
    InFront(front, back, |a|);
    older := back[..|a| - |front|];
    assert back == (front + back)[|front|..];
  }

  lemma UsedIsLast<K(!new)>(before: seq<K>, n: nat, k: K) returns (older: seq<K>)
    requires n > 0
    ensures Use(before, n, k) == older + [k] + []
  {
    var held := Use(before, n, k);
    older := held[..|held| - 1];
  }

  /** A held key is followed by the newer keys. */
  lemma {:induction false} SplitAtKey<K(!new)>(n: nat, history: seq<Event<K>>, k: K)
    returns (older: seq<K>, newer: seq<K>)
    requires k in Cache(n, history)
    ensures Cache(n, history) == older + [k] + newer
    ensures NoDup(newer) && forall x :: x in newer <==> x in Newer(history, k)
  {
    var init, last := history[..|history| - 1], history[|history| - 1];
    CacheFits(n, init);
    if last == Used(k) {
      older := UsedIsLast(Cache(n, init), n, k);
      newer := [];
    } else {
      HeldBefore(n, history, k);
      var a, b := SplitAtKey(n, init, k);
      match last
      case Used(j) =>
        older := UseAround(n, j, a, k, b);
        newer := Touch(b, j);
        TouchMembers(b, j);
      case Dropped(keys) =>
        older, newer := Drop(a, keys), Drop(b, keys);
        DropAround(a, k, b, keys);
        DropMembers(b, keys);
    }
  }

  /** What is held and was not just used, was held before and is not dropped. */
  lemma HeldBefore<K(!new)>(n: nat, history: seq<Event<K>>, k: K)
    requires k in Cache(n, history) && history[|history| - 1] != Used(k)
    ensures k in Cache(n, history[..|history| - 1])
    ensures history[|history| - 1].Dropped? ==> k !in history[|history| - 1].keys
  {
    var init, last := history[..|history| - 1], history[|history| - 1];
    CacheFits(n, init);
    match last
    case Used(j) => UseMembers(Cache(n, init), n, j);
    case Dropped(keys) => DropMembers(Cache(n, init), keys);
  }

  lemma {:induction false} SizeOfNoDup<K(!new)>(order: seq<K>, s: set<K>)
    requires NoDup(order) && forall x :: x in order <==> x in s
    ensures |order| == |s|
  {
    if order == [] {
      assert s == {};
    } else {
      var init, last := order[..|order| - 1], order[|order| - 1];
      assert order == init + [last];
      SizeOfNoDup(init, s - {last});
    }
  }

  /** The i-th event leaves `k` held, if it was: it does not drop it, and fewer than `n` keys are newer after it. */
  ghost predicate Leaves<K(!new)>(n: nat, history: seq<Event<K>>, k: K, i: nat)
    requires i < |history|
  {
    (history[i].Dropped? ==> k !in history[i].keys) && |Newer(history[..i + 1], k)| < n
  }

  /** The u-th event is a use of `k`, and every event from it on leaves `k` held. */
  ghost predicate HeldSince<K(!new)>(n: nat, history: seq<Event<K>>, k: K, u: nat) {
    && u < |history| && history[u] == Used(k)
    && forall i: nat :: u <= i < |history| ==> Leaves(n, history, k, i)
  }

  lemma FewNewer<K(!new)>(n: nat, history: seq<Event<K>>, k: K)
    requires k in Cache(n, history)
    ensures |Newer(history, k)| < n
  {
    var older, newer := SplitAtKey(n, history, k);
    SizeOfNoDup(newer, Newer(history, k));
    CacheFits(n, history);
  }

  lemma {:induction false} HeldMeansRecent<K(!new)>(n: nat, history: seq<Event<K>>, k: K) returns (u: nat)
    requires k in Cache(n, history)
    ensures HeldSince(n, history, k, u)
  {
    var last := |history| - 1;
    FewNewer(n, history, k);
    assert history[..last + 1] == history;
    u := last;
    if history[last] != Used(k) {
      HeldBefore(n, history, k);
      u := HeldMeansRecent(n, history[..last], k);
      LeavesMore(n, history, k, u);
    }
  }

  lemma LeavesMore<K(!new)>(n: nat, history: seq<Event<K>>, k: K, u: nat)
    requires history != []
    ensures HeldSince(n, history, k, u) && u < |history| - 1 ==> HeldSince(n, history[..|history| - 1], k, u)
    ensures HeldSince(n, history[..|history| - 1], k, u) && Leaves(n, history, k, |history| - 1) ==>
              HeldSince(n, history, k, u)
  {
    var init := history[..|history| - 1];
    forall i: nat | i < |init| ensures Leaves(n, init, k, i) <==> Leaves(n, history, k, i) {
      assert init[..i + 1] == history[..i + 1];
    }
  }

  lemma {:induction false} RecentMeansHeld<K(!new)>(n: nat, history: seq<Event<K>>, k: K, u: nat)
    requires HeldSince(n, history, k, u)
    ensures k in Cache(n, history)
  {
    var last := |history| - 1;
    var init := history[..last];
    assert history[..last + 1] == history && Leaves(n, history, k, last);
    var before := Cache(n, init);
    CacheFits(n, init);
    if u == last {
      var _ := UsedIsLast(before, n, k);
    } else {
      LeavesMore(n, history, k, u);
      RecentMeansHeld(n, init, k, u);
      var a, b := SplitAtKey(n, init, k);
      match history[last]
      case Used(j) => StaysHeld(n, before, j, a, k, b, Newer(init, k));
      case Dropped(keys) => DropMembers(before, keys);
    }
  }

  /** A use of `j` evicts `k` only if it makes `n` keys newer. */
  lemma StaysHeld<K(!new)>(n: nat, before: seq<K>, j: K, a: seq<K>, k: K, b: seq<K>, newer: set<K>)
    requires before == a + [k] + b && NoDup(before) && NoDup(b) && forall x :: x in b <==> x in newer
    requires n > 0 && (j == k || |newer + {j}| < n)
    ensures k in Use(before, n, j)
  {
    if j == k {
      var _ := UsedIsLast(before, n, k);
    } else {
      var touched, front := Touch(before, j), Drop(a, {j});
      TouchAround(j, a, k, b);
      TouchMembers(b, j);
      SizeOfNoDup(Touch(b, j), newer + {j});
      assert touched[|front|] == k;
      if |touched| > n {
        assert LastN(touched, n)[|front| - (|touched| - n)] == k;
      }
    }
  }

  /** Over any history of uses and drops, a key is held exactly when it was used, and since that use
      it was never dropped and at no time were there `n` newer keys. */
  lemma HeldExactlyIfFewNewer<K(!new)>(n: nat, history: seq<Event<K>>, k: K)
    ensures k in Cache(n, history) <==> exists u: nat :: HeldSince(n, history, k, u)
  {
    if k in Cache(n, history) {
      var u := HeldMeansRecent(n, history, k);
    }
    forall u: nat | HeldSince(n, history, k, u) ensures k in Cache(n, history) {
      RecentMeansHeld(n, history, k, u);
    }
  }
}
