/** The limit on chat commands: at most so many in any minute. */
module RateLimit {
  import opened SlidingWindow

  const WINDOW: real := 60.0

  type Key = (nat, string)

  function Before(cutoff: real): real -> bool { (t: real) => t < cutoff }

  lemma BeforeIsDownward(cutoff: real)
    ensures Downward(Before(cutoff))
  {
  }

  class BotRateLimiter {
    var buckets: map<Key, seq<real>>
    var now: real
    /** Per key, the times of all commands ever allowed. */
    ghost var allowed: map<Key, seq<real>>

    ghost predicate Valid()
      reads this
    {
      AllFit(allowed, buckets, now)
    }

    constructor ()
      ensures Valid() && allowed == map[]
    {
      buckets, now, allowed := map[], 0.0, map[];
    }

    /** The clock never goes back. */
    method Advance(time: real)
      requires Valid() && time >= 0.0
      modifies this
      ensures Valid() && now == old(now) + time && allowed == old(allowed)
    {
      AllFitOnward(allowed, buckets, now, now + time);
      now := now + time;
    }

    ghost function Allowed(key: Key): seq<real>
      reads this
    {
      if key in allowed then allowed[key] else []
    }

    /** A key's bucket, and its history, written back. */
    method Put(key: Key, hits: seq<real>, ghost all: seq<real>)
      requires Valid() && Fits(all, hits, now)
      modifies `buckets, `allowed
      ensures Valid() && allowed == old(allowed)[key := all]
    {
      AllFitPut(allowed, buckets, now, key, all, hits);
      buckets, allowed := buckets[key := hits], allowed[key := all];
    }

    /** Allows a command, and counts it, if and only if the last minute, its first
        moment included, holds fewer than the limit. */
    method Check(key: Key, perMinute: int) returns (ok: bool, remaining: int)
      requires Valid()
      modifies this
      ensures Valid() && now == old(now)
      ensures perMinute <= 0 ==> ok && remaining == 0 && allowed == old(allowed)
      ensures perMinute > 0 ==>
        var recent := Recent(old(Allowed(key)), now);
        && (ok <==> recent < perMinute)
        && remaining == (if ok then perMinute - recent - 1 else 0)
        && Allowed(key) == old(Allowed(key)) + (if ok then [now] else [])
      ensures perMinute > 0 ==> allowed == old(allowed)[key := Allowed(key)]
      ensures perMinute > 0 && Spaced(old(Allowed(key)), perMinute) ==> Spaced(Allowed(key), perMinute)
    {
      if perMinute <= 0 {
        return true, 0;
      }
      var hits := if key in buckets then buckets[key] else [];
      ghost var all := Allowed(key);
      assert key in buckets ==> KeyFits(allowed, buckets, now, key);
      ok, hits, remaining := CheckBucket(all, hits, now, perMinute);
      ghost var more := all + if ok then [now] else [];
      Put(key, hits, more);
    }
  }

  /** How many of a key's commands were allowed in the last minute. */
  ghost function Recent(all: seq<real>, now: real): nat { |Kept(all, Before(now - WINDOW))| }

  /** One key's part of a check. */
  method CheckBucket(ghost all: seq<real>, bucket: seq<real>, now: real, perMinute: int)
    returns (ok: bool, hits: seq<real>, remaining: int)
    requires Fits(all, bucket, now) && perMinute > 0
    ensures Fits(all + if ok then [now] else [], hits, now)
    ensures ok <==> Recent(all, now) < perMinute
    ensures remaining == if ok then perMinute - Recent(all, now) - 1 else 0
    ensures Spaced(all, perMinute) ==> Spaced(all + if ok then [now] else [], perMinute)
  {
    LatestAre(all, bucket, now);
    hits := PruneLeft(bucket, Before(now - WINDOW));
    if |hits| >= perMinute {
      assert all + [] == all;
      return false, hits, 0;
    }
    FitsMore(all, hits, now);
    SpacedMore(all, hits, now, perMinute);
    hits := hits + [now];
    remaining := if perMinute - |hits| > 0 then perMinute - |hits| else 0;
    ok := true;
  }

  /** The bucket holds the allowed times of the last minute, if not more. */
  ghost predicate Fits(all: seq<real>, bucket: seq<real>, now: real) {
    && Sorted(all)
    && (forall i | 0 <= i < |all| :: all[i] <= now)
    && Covers(all, bucket, Before(now - WINDOW))
  }

  ghost predicate KeyFits(allowed: map<Key, seq<real>>, buckets: map<Key, seq<real>>, now: real, key: Key) {
    key in allowed && key in buckets && Fits(allowed[key], buckets[key], now)
  }

  ghost predicate AllFit(allowed: map<Key, seq<real>>, buckets: map<Key, seq<real>>, now: real) {
    allowed.Keys == buckets.Keys && forall key | key in buckets :: KeyFits(allowed, buckets, now, key)
  }

  lemma AllFitPut(
    allowed: map<Key, seq<real>>, buckets: map<Key, seq<real>>, now: real, key: Key, all: seq<real>, hits: seq<real>)
    requires AllFit(allowed, buckets, now) && Fits(all, hits, now)
    ensures AllFit(allowed[key := all], buckets[key := hits], now)
  {
    var inAll, inBuckets := allowed[key := all], buckets[key := hits];
    forall k | k in inBuckets ensures KeyFits(inAll, inBuckets, now, k) {
      if k != key {
        assert KeyFits(allowed, buckets, now, k);
      }
    }
  }

  lemma AllFitOnward(allowed: map<Key, seq<real>>, buckets: map<Key, seq<real>>, now: real, later: real)
    requires AllFit(allowed, buckets, now) && now <= later
    ensures AllFit(allowed, buckets, later)
  {
    forall k | k in buckets ensures KeyFits(allowed, buckets, later, k) {
      assert KeyFits(allowed, buckets, now, k);
      FitsOnward(allowed[k], buckets[k], now, later);
    }
  }

  lemma FitsOnward(all: seq<real>, bucket: seq<real>, now: real, later: real)
    requires Fits(all, bucket, now) && now <= later
    ensures Fits(all, bucket, later)
  {
    CoversOnward(all, bucket, Before(now - WINDOW), Before(later - WINDOW));
  }

  lemma LatestAre(all: seq<real>, bucket: seq<real>, now: real)
    requires Fits(all, bucket, now)
    ensures var hits := Pruned(bucket, Before(now - WINDOW));
      Fits(all, hits, now) && hits == Kept(all, Before(now - WINDOW))
  {
    var gone := Before(now - WINDOW);
    BeforeIsDownward(now - WINDOW);
    CoversPruned(all, bucket, gone);
    PrunedIsKept(all, gone);
  }

  lemma FitsMore(all: seq<real>, bucket: seq<real>, now: real)
    requires Fits(all, bucket, now)
    ensures Fits(all + [now], bucket + [now], now)
  {
    CoversMore(all, bucket, Before(now - WINDOW), now);
    SortedMore(all, now);
  }

  // ------------------------------------------------------------ no minute holds more

  /** Every time comes more than a minute after the one `n` places before it. */
  ghost predicate Spaced(times: seq<real>, n: int) {
    forall i :: SpacedAt(times, n, i)
  }

  predicate SpacedAt(times: seq<real>, n: int, i: int) {
    0 <= i < |times| && 0 <= i + n < |times| ==> times[i + n] > times[i] + WINDOW
  }

  lemma SpacedMore(all: seq<real>, hits: seq<real>, now: real, n: int)
    requires Fits(all, hits, now) && |hits| < n
    ensures Spaced(all, n) ==> Spaced(all + [now], n)
  {
    if Spaced(all, n) {
      forall i ensures SpacedAt(all + [now], n, i) {
        assert SpacedAt(all, n, i);
        if 0 <= i == |all| - n {
          assert Before(now - WINDOW)(all[i]);
        }
      }
    }
  }

  /** How many of some times lie in the closed minute from `from` on. */
  function InMinute(times: seq<real>, from: real): nat {
    if times == [] then 0
    else InMinute(times[..|times| - 1], from) + if from <= times[|times| - 1] <= from + WINDOW then 1 else 0
  }

  lemma {:induction false} BeforeMinute(times: seq<real>, from: real, k: nat)
    requires Sorted(times) && k <= |times|
    requires forall i | 0 <= i < k :: times[i] < from
    ensures InMinute(times, from) <= |times| - k
  {
    if |times| > k {
      BeforeMinute(times[..|times| - 1], from, k);
    } else if times != [] {
      BeforeMinute(times[..|times| - 1], from, k - 1);
    }
  }

  /** A key limited to `n` commands a minute has at most `n` allowed in any minute at
      all. */
  lemma {:induction false} NoMinuteHoldsMore(times: seq<real>, n: int, from: real)
    requires Sorted(times) && n > 0 && Spaced(times, n)
    ensures InMinute(times, from) <= n
    decreases |times|
  {
    if times != [] {
      var last := |times| - 1;
      var rest := times[..last];
      assert Spaced(rest, n) by {
        forall i ensures SpacedAt(rest, n, i) {
          assert SpacedAt(times, n, i);
        }
      }
      NoMinuteHoldsMore(rest, n, from);
      if from <= times[last] <= from + WINDOW && last >= n {
        assert SpacedAt(times, n, last - n);
        BeforeMinute(times, from, last - n + 1);
      } else if last < n {
        BeforeMinute(times, from, 0);
      }
    }
  }
}
