/** Counting events on a timeline: what the rate limiters and the circuit breaker have in common. */
module Timeline {

  /** The j-th event is at least `gap` after the i-th. */
  ghost predicate After(times: seq<real>, i: nat, j: nat, gap: real)
    requires i <= j < |times|
  {
    times[i] + gap <= times[j]
  }

  ghost predicate Ordered(times: seq<real>) {
    forall i: nat, j: nat :: i <= j < |times| ==> After(times, i, j, 0.0)
  }

  /** Any event is at least `width` after those `limit` or more places before it. */
  ghost predicate Spaced(times: seq<real>, limit: nat, width: real) {
    forall i: nat, j: nat :: i + limit <= j < |times| ==> After(times, i, j, width)
  }

  /** The half-open windows `(end - width, end]` and `[start, start + width)`. */
  datatype Window = UpTo(end: real, width: real) | From(start: real, width: real) {
    predicate Has(t: real) {
      match this
      case UpTo(_, _) => end - width < t <= end
      case From(_, _) => start <= t < start + width
    }
  }

  ghost function Count(times: seq<real>, during: Window): nat {
    if times == [] then 0
    else Count(times[..|times| - 1], during) + (if during.Has(times[|times| - 1]) then 1 else 0)
  }

  lemma {:induction false} CountAtMost(times: seq<real>, during: Window, keep: nat)
    requires keep <= |times|
    ensures Count(times[..keep], during) <= Count(times, during) <= Count(times[..keep], during) + |times| - keep
    decreases |times|
  {
    if keep == |times| {
      assert times[..keep] == times;
    } else {
      var init := times[..|times| - 1];
      assert init[..keep] == times[..keep];
      CountAtMost(init, during, keep);
    }
  }

  lemma {:induction false} CountNone(times: seq<real>, during: Window)
    requires forall i :: 0 <= i < |times| ==> !during.Has(times[i])
    ensures Count(times, during) == 0
  {
    if times != [] {
      CountNone(times[..|times| - 1], during);
    }
  }

  lemma {:induction false} CountAll(times: seq<real>, during: Window)
    requires forall i :: 0 <= i < |times| ==> during.Has(times[i])
    ensures Count(times, during) == |times|
  {
    if times != [] {
      CountAll(times[..|times| - 1], during);
    }
  }

  lemma {:induction false} CountSplit(times: seq<real>, during: Window, cut: nat)
    requires cut <= |times|
    ensures Count(times, during) == Count(times[..cut], during) + Count(times[cut..], during)
    decreases |times|
  {
    if cut == |times| {
      assert times[..cut] == times;
    } else {
      var init := times[..|times| - 1];
      assert init[..cut] == times[..cut];
      assert init[cut..] == times[cut..][..|times| - cut - 1];
      CountSplit(init, during, cut);
    }
  }

  lemma CountTail(times: seq<real>, cut: nat, during: Window)
    requires cut <= |times|
    requires forall i :: 0 <= i < cut ==> !during.Has(times[i])
    requires forall i :: cut <= i < |times| ==> during.Has(times[i])
    ensures Count(times, during) == |times| - cut
  {
    CountNone(times[..cut], during);
    CountAll(times[cut..], during);
    CountSplit(times, during, cut);
  }

  /** The events of the window that ends now are the ones after the first recent one. */
  lemma CountRecent(times: seq<real>, cut: nat, width: real, now: real)
    requires Ordered(times) && cut <= |times|
    requires forall i :: 0 <= i < |times| ==> times[i] <= now
    requires forall i :: 0 <= i < cut ==> times[i] <= now - width
    requires cut < |times| ==> now - width < times[cut]
    ensures Count(times, UpTo(now, width)) == |times| - cut
  {
    forall i | cut <= i < |times| ensures now - width < times[i] {
      assert After(times, cut, i, 0.0);
    }
    CountTail(times, cut, UpTo(now, width));
  }

  /** One more event keeps the spacing when fewer than `limit` are recent. */
  lemma AppendSpaced(times: seq<real>, limit: nat, width: real, now: real, cut: nat)
    requires Ordered(times) && Spaced(times, limit, width)
    requires forall i :: 0 <= i < |times| ==> times[i] <= now
    requires cut <= |times| < cut + limit
    requires forall i :: 0 <= i < cut ==> times[i] <= now - width
    ensures Ordered(times + [now]) && Spaced(times + [now], limit, width)
  {
    var all := times + [now];
    forall i: nat, j: nat | i <= j < |all| ensures After(all, i, j, 0.0) {
      assert j < |times| ==> After(times, i, j, 0.0);
    }
    forall i: nat, j: nat | i + limit <= j < |all| ensures After(all, i, j, width) {
      assert j < |times| ==> After(times, i, j, width);
    }
  }

  lemma OrderedPrefix(times: seq<real>, limit: nat, width: real, keep: nat)
    requires keep <= |times|
    ensures Ordered(times) ==> Ordered(times[..keep])
    ensures Spaced(times, limit, width) ==> Spaced(times[..keep], limit, width)
  {
    forall i: nat, j: nat | i <= j < keep
      ensures Ordered(times) ==> After(times[..keep], i, j, 0.0)
      ensures Spaced(times, limit, width) && i + limit <= j ==> After(times[..keep], i, j, width)
    {
      assert Ordered(times) ==> After(times, i, j, 0.0);
      assert Spaced(times, limit, width) && i + limit <= j ==> After(times, i, j, width);
    }
  }

  /** Spacing bounds every window: at most `limit` events in any stretch of length `width`. */
  lemma {:induction false} SpacedCount(times: seq<real>, limit: nat, width: real, during: Window)
    requires Ordered(times) && Spaced(times, limit, width) && during.width == width
    requires limit > 0
    ensures Count(times, during) <= limit
    decreases |times|
  {
    if times != [] {
      var last := |times| - 1;
      var init := times[..last];
      if during.Has(times[last]) && last >= limit {
        var keep := last - limit + 1;
        forall i | 0 <= i < keep ensures !during.Has(times[..keep][i]) {
          assert After(times, i, last, width);
        }
        CountNone(times[..keep], during);
        CountAtMost(times, during, keep);
      } else if during.Has(times[last]) {
        CountAtMost(times, during, 0);
      } else {
        OrderedPrefix(times, limit, width, last);
        SpacedCount(init, limit, width, during);
      }
    }
  }
}
