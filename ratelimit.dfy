/**
 * The sliding-window `RateLimiter`: each key keeps the instants of its
 * admitted requests; a request is admitted while fewer than `limit` of them
 * lie strictly after `now - window`. Instants are nanosecond counts, and the
 * clock reading is a parameter of every operation.
 */
module RateLimit {

  /** The entries of ts strictly after the cutoff, in their order (`t.After(windowStart)`). */
  function Recent(ts: seq<int>, cutoff: int): seq<int> {
    if |ts| == 0 then []
    else Recent(ts[..|ts| - 1], cutoff) + (if ts[|ts| - 1] > cutoff then [ts[|ts| - 1]] else [])
  }

  predicate Ascending(ts: seq<int>) {
    forall i, j :: 0 <= i < j < |ts| ==> ts[i] <= ts[j]
  }

  predicate AllNotAfter(ts: seq<int>, now: int) {
    forall i :: 0 <= i < |ts| ==> ts[i] <= now
  }

  /** An instant survives pruning exactly when it was recorded and lies after the cutoff. */
  lemma {:induction false} RecentMembers(ts: seq<int>, cutoff: int)
    ensures forall t :: t in Recent(ts, cutoff) <==> t in ts && t > cutoff
    ensures |Recent(ts, cutoff)| <= |ts|
  {
    if |ts| > 0 {
      var init := ts[..|ts| - 1];
      RecentMembers(init, cutoff);
      assert ts == init + [ts[|ts| - 1]];
    }
  }

  /** Pruning keeps the order of the entries. */
  lemma {:induction false} RecentAscending(ts: seq<int>, cutoff: int)
    requires Ascending(ts)
    ensures Ascending(Recent(ts, cutoff))
  {
    if |ts| > 0 {
      var init := ts[..|ts| - 1];
      RecentAscending(init, cutoff);
      RecentMembers(init, cutoff);
      var r := Recent(init, cutoff);
      forall i | 0 <= i < |r|
        ensures r[i] <= ts[|ts| - 1]
      {
        assert r[i] in r;
        var j :| 0 <= j < |init| && init[j] == r[i];
        assert ts[j] == init[j];
      }
    }
  }

  /** A list whose entries all lie after the cutoff is pruned to itself. */
  lemma {:induction false} RecentKeepsAll(ts: seq<int>, cutoff: int)
    requires forall i :: 0 <= i < |ts| ==> ts[i] > cutoff
    ensures Recent(ts, cutoff) == ts
  {
    if |ts| > 0 {
      RecentKeepsAll(ts[..|ts| - 1], cutoff);
      assert ts[..|ts| - 1] + [ts[|ts| - 1]] == ts;
    }
  }

  /** Pruning twice with the same cutoff prunes nothing more. */
  lemma RecentIdempotent(ts: seq<int>, cutoff: int)
    ensures Recent(Recent(ts, cutoff), cutoff) == Recent(ts, cutoff)
  {
    var r := Recent(ts, cutoff);
    RecentMembers(ts, cutoff);
    assert forall i :: 0 <= i < |r| ==> r[i] in r;
    RecentKeepsAll(r, cutoff);
  }

  /** The pruning loop of `Allow` and `GetRemaining`. */
  method Prune(ts: seq<int>, cutoff: int) returns (valid: seq<int>)
    ensures valid == Recent(ts, cutoff)
  {
    valid := [];
    for i := 0 to |ts|
      invariant valid == Recent(ts[..i], cutoff)
    {
      assert ts[..i + 1][..i] == ts[..i];
      if ts[i] > cutoff {
        valid := valid + [ts[i]];
      }
    }
    assert ts[..|ts|] == ts;
  }

  class RateLimiter {
    var requests: map<string, seq<int>>
    const limit: int
    const window: int

    /** `NewRateLimiter`. */
    constructor (limit: int, window: int)
      ensures this.limit == limit && this.window == window && requests == map[]
    {
      this.limit := limit;
      this.window := window;
      requests := map[];
    }

    /** The key's list as Go reads it: a missing key reads as an empty slice. */
    function Entries(key: string): seq<int>
      reads this
    {
      if key in requests then requests[key] else []
    }

    /** Every list is ascending and no entry is later than now. */
    predicate Ordered(now: int)
      reads this
    {
      forall k :: k in requests ==> Ascending(requests[k]) && AllNotAfter(requests[k], now)
    }

    /**
     * `Allow`: prune the key's list (written back when the key exists), then
     * admit and record now exactly when fewer than limit entries survive.
     */
    method Allow(key: string, now: int) returns (ok: bool)
      modifies this
      ensures ok <==> |Recent(old(Entries(key)), now - window)| < limit
      ensures ok ==> requests == old(requests)[key := Recent(old(Entries(key)), now - window) + [now]]
      ensures !ok && key in old(requests) ==> requests == old(requests)[key := Recent(old(requests[key]), now - window)]
      ensures !ok && key !in old(requests) ==> requests == old(requests)
      ensures ok ==> |Entries(key)| <= limit && Entries(key)[|Entries(key)| - 1] == now
      ensures forall k :: k != key ==> Entries(k) == old(Entries(k)) && (k in requests <==> k in old(requests))
      ensures old(Ordered(now)) ==> Ordered(now)
    {
      var cutoff := now - window;
      if key in requests {
        var valid := Prune(requests[key], cutoff);
        requests := requests[key := valid];
      }
      ghost var pruned := Recent(old(Entries(key)), cutoff);
      assert key in old(requests) ==> requests[key] == pruned;
      var current := if key in requests then requests[key] else [];
      assert current == pruned;
      if |current| >= limit {
        ok := false;
      } else {
        requests := requests[key := current + [now]];
        ok := true;
      }
      if old(Ordered(now)) {
        KeepsOrder(old(Entries(key)), cutoff, now);
      }
    }

    /** `Reset`: forget the key. */
    method Reset(key: string)
      modifies this
      ensures requests == old(requests) - {key}
      ensures key !in requests && Entries(key) == []
    {
      requests := requests - {key};
    }

    /** `GetRemaining`: how many more requests the window admits; the state is not changed. */
    method GetRemaining(key: string, now: int) returns (n: int)
      ensures n == limit - |Recent(Entries(key), now - window)|
      ensures n >= limit - |Entries(key)|
      ensures key !in requests ==> n == limit
    {
      var valid := Prune(Entries(key), now - window);
      RecentMembers(Entries(key), now - window);
      n := limit - |valid|;
    }

    /**
     * `GetResetTime`: now for an empty list, else the first entry plus the
     * window; when the lists are ordered that first entry is the oldest.
     */
    method GetResetTime(key: string, now: int) returns (t: int)
      ensures Entries(key) == [] ==> t == now
      ensures Entries(key) != [] ==> t == Entries(key)[0] + window
      ensures Entries(key) != [] && Ordered(now) ==> forall u :: u in Entries(key) ==> t - window <= u
    {
      if |Entries(key)| == 0 {
        return now;
      }
      t := Entries(key)[0] + window;
    }
  }

  /** The list Allow leaves for its key is ascending and not later than now when the old one was. */
  lemma KeepsOrder(ts: seq<int>, cutoff: int, now: int)
    requires Ascending(ts) && AllNotAfter(ts, now)
    ensures Ascending(Recent(ts, cutoff)) && AllNotAfter(Recent(ts, cutoff), now)
    ensures Ascending(Recent(ts, cutoff) + [now]) && AllNotAfter(Recent(ts, cutoff) + [now], now)
  {
    RecentAscending(ts, cutoff);
    RecentMembers(ts, cutoff);
    var r := Recent(ts, cutoff);
    forall i | 0 <= i < |r|
      ensures r[i] <= now
    {
      assert r[i] in r;
    }
  }

  /** A later clock reading keeps the lists ordered, so calls with a clock that never goes back keep every list ascending. */
  lemma OrderedLater(l: RateLimiter, now: int, later: int)
    requires l.Ordered(now) && now <= later
    ensures l.Ordered(later)
  {
  }
}
