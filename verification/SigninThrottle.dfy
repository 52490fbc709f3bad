/** Failed sign-ins counted in a sliding window, against the whole history. */
module SigninThrottle {
  import opened Wrappers
  import opened SlidingWindow

  /** Buckets are pruned once the table grows past this many keys. */
  const PRUNE_AT: nat := 10_000

  datatype Key = OfAddress(address: string) | OfAccount(account: string, at: string)

  /** The history: failures, each counted under some keys, and successes, each clearing
      one. */
  datatype Event = Failure(keys: seq<Key>, time: real) | Success(key: Key)

  /** What an event makes of the failures counted under a key. */
  function Counting(before: seq<real>, e: Event, key: Key): seq<real> {
    match e
    case Failure(keys, time) => if key in keys then before + [time] else before
    case Success(k) => if k == key then [] else before
  }

  /** The failures counted under a key since it was last cleared. */
  function Since(log: seq<Event>, key: Key): seq<real> {
    if log == [] then [] else Counting(Since(log[..|log| - 1], key), log[|log| - 1], key)
  }

  lemma SinceSnoc(log: seq<Event>, e: Event, key: Key)
    ensures Since(log + [e], key) == Counting(Since(log, key), e, key)
  {
    assert (log + [e])[..|log|] == log;
  }

  /** Out of a window that ends at `now`. */
  function Out(window: real, now: real): real -> bool { (t: real) => t <= now - window }

  lemma OutIsDownward(window: real, now: real)
    ensures Downward(Out(window, now))
  {
  }

  /** The failures under a key in the window. */
  function InWindow(log: seq<Event>, key: Key, window: real, now: real): seq<real> {
    Kept(Since(log, key), Out(window, now))
  }

  /** How an attempt ends that was not refused: it may raise with a status that counts,
      or raise otherwise, which counts nothing and clears nothing. */
  datatype Outcome = Succeeds | Fails | Breaks

  datatype Limits = Limits(account: int, address: int)

  function LimitOf(limits: Limits, key: Key): int { if key.OfAddress? then limits.address else limits.account }

  /** The keys an attempt counts under: those with a limit. */
  function KeysOf(limits: Limits, address: string, account: Option<string>): seq<Key> {
    (if limits.address > 0 then [OfAddress(address)] else []) +
    (if account.Some? && limits.account > 0 then [OfAccount(account.value, address)] else [])
  }

  // ------------------------------------------------------------ the table

  type Table = map<Key, seq<real>>

  function BucketOf(table: Table, key: Key): seq<real> { if key in table then table[key] else [] }

  /** A bucket holds the failures in the window, if not more. */
  ghost predicate Fresh(all: seq<real>, bucket: seq<real>, window: real, now: real) {
    && Sorted(all)
    && (forall i | 0 <= i < |all| :: all[i] <= now)
    && Covers(all, bucket, Out(window, now))
  }

  ghost predicate Fits(log: seq<Event>, table: Table, window: real, now: real, key: Key) {
    Fresh(Since(log, key), BucketOf(table, key), window, now)
  }

  lemma FreshMore(all: seq<real>, bucket: seq<real>, window: real, now: real)
    requires Fresh(all, bucket, window, now)
    ensures Fresh(all + [now], bucket + [now], window, now)
  {
    CoversMore(all, bucket, Out(window, now), now);
    SortedMore(all, now);
  }

  lemma FreshPruned(all: seq<real>, bucket: seq<real>, window: real, now: real)
    requires Fresh(all, bucket, window, now)
    ensures Fresh(all, Pruned(bucket, Out(window, now)), window, now)
    ensures Pruned(bucket, Out(window, now)) == Kept(all, Out(window, now))
  {
    OutIsDownward(window, now);
    PrunedIsKept(all, Out(window, now));
    CoversPruned(all, bucket, Out(window, now));
  }

  ghost predicate AllFit(log: seq<Event>, table: Table, window: real, now: real) {
    forall key: Key :: Fits(log, table, window, now, key)
  }

  lemma FitsOnward(log: seq<Event>, table: Table, window: real, now: real, later: real)
    requires AllFit(log, table, window, now) && now <= later
    ensures AllFit(log, table, window, later)
  {
    forall key: Key ensures Fits(log, table, window, later, key) {
      assert Fits(log, table, window, now, key);
      CoversOnward(Since(log, key), BucketOf(table, key), Out(window, now), Out(window, later));
    }
  }

  /** The table with one bucket pruned, and dropped when that leaves it empty. */
  function PrunedAt(table: Table, window: real, now: real, key: Key): Table {
    if key !in table then table
    else
      var bucket := Pruned(table[key], Out(window, now));
      if bucket == [] then map k | k in table && k != key :: table[k] else table[key := bucket]
  }

  lemma BucketPruned(table: Table, window: real, now: real, key: Key, k: Key)
    ensures BucketOf(PrunedAt(table, window, now, key), k) ==
      if k == key then Pruned(BucketOf(table, key), Out(window, now)) else BucketOf(table, k)
  {
  }

  lemma PrunedFits(log: seq<Event>, table: Table, window: real, now: real, key: Key)
    requires AllFit(log, table, window, now)
    ensures AllFit(log, PrunedAt(table, window, now, key), window, now)
    ensures BucketOf(PrunedAt(table, window, now, key), key) == InWindow(log, key, window, now)
  {
    assert Fits(log, table, window, now, key);
    FreshPruned(Since(log, key), BucketOf(table, key), window, now);
    BucketPruned(table, window, now, key, key);
    forall k: Key ensures Fits(log, PrunedAt(table, window, now, key), window, now, k) {
      assert Fits(log, table, window, now, k);
      BucketPruned(table, window, now, key, k);
    }
  }

  lemma FailureFitsAt(log: seq<Event>, keys: seq<Key>, key: Key, table: Table, window: real, now: real, k: Key)
    requires Fits(log + [Failure(keys, now)], table, window, now, k) && key !in keys
    ensures Fits(log + [Failure(keys + [key], now)], table[key := BucketOf(table, key) + [now]], window, now, k)
  {
    SinceSnoc(log, Failure(keys, now), k);
    SinceSnoc(log, Failure(keys + [key], now), k);
    if k == key {
      FreshMore(Since(log, k), BucketOf(table, k), window, now);
    } else {
      assert k in keys + [key] <==> k in keys;
    }
  }

  /** A failure counted under one key more. */
  lemma FailureFits(log: seq<Event>, keys: seq<Key>, key: Key, table: Table, window: real, now: real)
    requires AllFit(log + [Failure(keys, now)], table, window, now) && key !in keys
    ensures AllFit(log + [Failure(keys + [key], now)], table[key := BucketOf(table, key) + [now]], window, now)
  {
    var more := table[key := BucketOf(table, key) + [now]];
    forall k: Key ensures Fits(log + [Failure(keys + [key], now)], more, window, now, k) {
      assert Fits(log + [Failure(keys, now)], table, window, now, k);
      FailureFitsAt(log, keys, key, table, window, now, k);
    }
  }

  lemma NothingCounted(log: seq<Event>, table: Table, window: real, now: real)
    requires AllFit(log, table, window, now)
    ensures AllFit(log + [Failure([], now)], table, window, now)
  {
    forall k: Key ensures Fits(log + [Failure([], now)], table, window, now, k) {
      assert Fits(log, table, window, now, k);
      SinceSnoc(log, Failure([], now), k);
    }
  }

  lemma SuccessFits(log: seq<Event>, table: Table, window: real, now: real, key: Key)
    requires AllFit(log, table, window, now)
    ensures AllFit(log + [Success(key)], map k | k in table && k != key :: table[k], window, now)
  {
    var less := map k | k in table && k != key :: table[k];
    forall k: Key ensures Fits(log + [Success(key)], less, window, now, k) {
      assert Fits(log, table, window, now, k);
      SinceSnoc(log, Success(key), k);
    }
  }

  // ------------------------------------------------------------ the throttle

  /** Whether a key's failures in the window reach its limit. */
  predicate Reached(limits: Limits, log: seq<Event>, window: real, now: real, key: Key) {
    |InWindow(log, key, window, now)| >= LimitOf(limits, key)
  }

  /** The key blocks its caller, for the time it has still to wait. */
  predicate Blocks(limits: Limits, log: seq<Event>, window: real, now: real, key: Key, wait: real) {
    && Reached(limits, log, window, now, key)
    && InWindow(log, key, window, now) != []
    && wait == WaitFor(InWindow(log, key, window, now), window, now)
  }

  /** Of the first `n` keys, those a failure more takes just to their limit. */
  function JustFull(limits: Limits, log: seq<Event>, window: real, now: real, keys: seq<Key>, n: nat): seq<Key>
    requires n <= |keys|
  {
    if n == 0 then []
    else
      JustFull(limits, log, window, now, keys, n - 1) +
      if |InWindow(log, keys[n - 1], window, now)| + 1 == LimitOf(limits, keys[n - 1]) then [keys[n - 1]] else []
  }

  /** How long until the oldest failure counted is out of the window; a second at
      least. */
  function WaitFor(times: seq<real>, window: real, now: real): real
    requires times != []
  {
    if times[0] + window - now > 1.0 then times[0] + window - now else 1.0
  }

  lemma OneKeyMore(keys: seq<Key>, i: nat)
    requires i < |keys|
    ensures keys[..i + 1] == keys[..i] + [keys[i]]
  {
  }

  class SignInThrottle {
    const limits: Limits
    const window: real
    var failures: Table
    var now: real
    ghost var log: seq<Event>

    ghost predicate Valid()
      reads this
    {
      AllFit(log, failures, window, now)
    }

    constructor (limits: Limits, window: real)
      ensures Valid() && now == 0.0 && log == [] && this.limits == limits && this.window == window
    {
      this.limits, this.window := limits, window;
      failures, now, log := map[], 0.0, [];
    }

    /** The clock never goes back. */
    method Advance(time: real)
      requires Valid() && time >= 0.0
      modifies this
      ensures Valid() && now == old(now) + time && log == old(log)
      ensures old(Bounded(limits, log, window, now)) ==> Bounded(limits, log, window, now)
    {
      if Bounded(limits, log, window, now) {
        BoundedOnward(limits, log, window, now, now + time);
      }
      FitsOnward(log, failures, window, now, now + time);
      now := now + time;
    }

    /** A key's failures in the window, its bucket pruned. */
    method Recent(key: Key) returns (bucket: seq<real>)
      requires Valid()
      modifies this`failures
      ensures Valid() && bucket == InWindow(log, key, window, now) == BucketOf(failures, key)
      ensures failures == PrunedAt(old(failures), window, now, key)
    {
      PrunedFits(log, failures, window, now, key);
      if key !in failures {
        return [];
      }
      bucket := PruneLeft(failures[key], Out(window, now));
      if bucket == [] {
        failures := map k | k in failures && k != key :: failures[k];
      } else {
        failures := failures[key := bucket];
      }
    }

    /** Blocked if and only if one of the caller's keys has reached its limit; then the
        first such key says how long to wait. */
    method RetryAfter(address: string, account: Option<string>) returns (wait: Option<real>)
      requires Valid()
      modifies this`failures
      ensures Valid()
      ensures var keys := KeysOf(limits, address, account);
        wait.Some? <==> exists key | key in keys :: Reached(limits, log, window, now, key)
      ensures wait.Some? ==>
        exists key | key in KeysOf(limits, address, account) :: Blocks(limits, log, window, now, key, wait.value)
    {
      var keys := KeysOf(limits, address, account);
      for i := 0 to |keys|
        invariant Valid()
        invariant forall k | 0 <= k < i :: !Reached(limits, log, window, now, keys[k])
      {
        var bucket := Recent(keys[i]);
        if |bucket| >= LimitOf(limits, keys[i]) {
          wait := Some(WaitFor(bucket, window, now));
          assert Blocks(limits, log, window, now, keys[i], wait.value);
          return;
        }
      }
      wait := None;
    }

    /** The table pruned once it has grown too large: the counts stay. */
    method PruneAll()
      requires Valid()
      modifies this`failures
      ensures Valid()
    {
      var left := failures.Keys;
      while left != {}
        invariant Valid()
        decreases left
      {
        var key :| key in left;
        var _ := Recent(key);
        left := left - {key};
      }
    }

    /** Counts the present failure under one key more. */
    method CountOne(key: Key, ghost before: seq<Event>, ghost keys: seq<Key>) returns (full: bool)
      requires Valid() && log == before + [Failure(keys, now)] && key !in keys
      modifies this
      ensures Valid() && now == old(now) && log == before + [Failure(keys + [key], now)]
      ensures full <==> |InWindow(before, key, window, now)| + 1 == LimitOf(limits, key)
    {
      SinceSnoc(before, Failure(keys, now), key);
      var bucket := Recent(key);
      FailureFits(before, keys, key, failures, window, now);
      failures, log := failures[key := bucket + [now]], before + [Failure(keys + [key], now)];
      full := |bucket| + 1 == LimitOf(limits, key);
    }

    /** Counts one failure; tells which limits it just reached. */
    method RecordFailure(address: string, account: Option<string>) returns (reached: seq<Key>)
      requires Valid()
      modifies this
      ensures Valid() && now == old(now)
      ensures log == old(log) + [Failure(KeysOf(limits, address, account), now)]
      ensures reached ==
        JustFull(limits, old(log), window, now, KeysOf(limits, address, account), |KeysOf(limits, address, account)|)
    {
      if |failures| > PRUNE_AT {
        PruneAll();
      }
      var keys := KeysOf(limits, address, account);
      ghost var before := log;
      NothingCounted(log, failures, window, now);
      reached, log := [], before + [Failure([], now)];
      for i := 0 to |keys|
        invariant Valid() && now == old(now) && log == before + [Failure(keys[..i], now)]
        invariant reached == JustFull(limits, before, window, now, keys, i)
      {
        var full := CountOne(keys[i], before, keys[..i]);
        OneKeyMore(keys, i);
        if full {
          reached := reached + [keys[i]];
        }
      }
      assert keys[..|keys|] == keys;
    }

    /** A success clears the account's failures from that address. */
    method Clear(address: string, account: string)
      requires Valid()
      modifies this
      ensures Valid() && now == old(now) && log == old(log) + [Success(OfAccount(account, address))]
    {
      var key := OfAccount(account, address);
      SuccessFits(log, failures, window, now, key);
      failures := map k | k in failures && k != key :: failures[k];
      log := log + [Success(key)];
    }

    /** One attempt to sign in, made when the one before is over. No bucket exceeds its
        limit. */
    method Attempt(address: string, account: Option<string>, outcome: Outcome) returns (wait: Option<real>)
      requires Valid() && Bounded(limits, log, window, now)
      modifies this
      ensures Valid() && now == old(now) && Bounded(limits, log, window, now)
      ensures wait.Some? <==>
        exists key | key in KeysOf(limits, address, account) :: Reached(limits, old(log), window, now, key)
      ensures log ==
        if wait.Some? then old(log)
        else if outcome.Fails? then old(log) + [Failure(KeysOf(limits, address, account), now)]
        else if outcome.Succeeds? && account.Some? then old(log) + [Success(OfAccount(account.value, address))]
        else old(log)
    {
      wait := RetryAfter(address, account);
      if wait.None? {
        if outcome.Fails? {
          BoundedFailure(limits, log, window, now, KeysOf(limits, address, account));
          var _ := RecordFailure(address, account);
        } else if outcome.Succeeds? && account.Some? {
          BoundedSuccess(limits, log, window, now, OfAccount(account.value, address));
          Clear(address, account.value);
        }
      }
    }
  }

  // ------------------------------------------------------------ attempt after attempt

  predicate BoundedAt(limits: Limits, log: seq<Event>, window: real, now: real, key: Key) {
    |InWindow(log, key, window, now)| <= if LimitOf(limits, key) > 0 then LimitOf(limits, key) else 0
  }

  ghost predicate Bounded(limits: Limits, log: seq<Event>, window: real, now: real) {
    forall key: Key :: BoundedAt(limits, log, window, now, key)
  }

  lemma {:induction false} KeptSnoc(times: seq<real>, t: real, gone: real -> bool)
    ensures Kept(times + [t], gone) == Kept(times, gone) + if gone(t) then [] else [t]
    decreases |times|
  {
    var more := times + [t];
    if times != [] {
      KeptSnoc(times[1..], t, gone);
      assert more[1..] == times[1..] + [t];
    }
  }

  lemma BoundedFailure(limits: Limits, log: seq<Event>, window: real, now: real, keys: seq<Key>)
    requires Bounded(limits, log, window, now)
    requires forall key | key in keys :: !Reached(limits, log, window, now, key)
    ensures Bounded(limits, log + [Failure(keys, now)], window, now)
  {
    forall key: Key ensures BoundedAt(limits, log + [Failure(keys, now)], window, now, key) {
      assert BoundedAt(limits, log, window, now, key);
      SinceSnoc(log, Failure(keys, now), key);
      KeptSnoc(Since(log, key), now, Out(window, now));
    }
  }

  lemma BoundedSuccess(limits: Limits, log: seq<Event>, window: real, now: real, cleared: Key)
    requires Bounded(limits, log, window, now)
    ensures Bounded(limits, log + [Success(cleared)], window, now)
  {
    forall key: Key ensures BoundedAt(limits, log + [Success(cleared)], window, now, key) {
      assert BoundedAt(limits, log, window, now, key);
      SinceSnoc(log, Success(cleared), key);
    }
  }

  lemma {:induction false} KeptShrinks(times: seq<real>, gone: real -> bool, later: real -> bool)
    requires forall t: real | gone(t) :: later(t)
    ensures |Kept(times, later)| <= |Kept(times, gone)|
    decreases |times|
  {
    if times != [] {
      var t := times[0];
      assert gone(t) ==> later(t);
      KeptShrinks(times[1..], gone, later);
    }
  }

  /** Time alone takes nobody over a limit. */
  lemma BoundedOnward(limits: Limits, log: seq<Event>, window: real, now: real, later: real)
    requires Bounded(limits, log, window, now) && now <= later
    ensures Bounded(limits, log, window, later)
  {
    forall key: Key ensures BoundedAt(limits, log, window, later, key) {
      assert BoundedAt(limits, log, window, now, key);
      KeptShrinks(Since(log, key), Out(window, now), Out(window, later));
    }
  }

  lemma {:induction false} FewerThan(times: seq<real>, gone: real -> bool, limit: nat)
    requires Sorted(times) && Downward(gone) && 1 <= limit <= |times|
    ensures |Kept(times, gone)| < limit <==> gone(times[|times| - limit])
    decreases |times|
  {
    if !gone(times[0]) {
      NoneGone(times, gone);
    } else if limit < |times| {
      FewerThan(times[1..], gone, limit);
    } else {
      KeptAtMost(times[1..], gone);
    }
  }

  lemma {:induction false} KeptAtMost(times: seq<real>, gone: real -> bool)
    ensures |Kept(times, gone)| <= |times|
  {
    if times != [] {
      KeptAtMost(times[1..], gone);
    }
  }

  /** Waiting the time returned lifts the limit that reported it if and only if by then
      the failures beyond the limit's last are out of the window. */
  lemma WaitLiftsIff(log: seq<Event>, key: Key, window: real, now: real, limit: nat)
    requires Sorted(Since(log, key)) && 1 <= limit <= |InWindow(log, key, window, now)|
    ensures var times := InWindow(log, key, window, now);
      var later := now + WaitFor(times, window, now);
      |InWindow(log, key, window, later)| < limit <==> times[|times| - limit] <= later - window
  {
    var times := InWindow(log, key, window, now);
    LiftedIff(Since(log, key), times, window, now, now + WaitFor(times, window, now), limit);
  }

  lemma {:induction false} FewerLater(all: seq<real>, kept: seq<real>, gone: real -> bool,
    later: real -> bool, limit: nat)
    requires kept == Kept(all, gone) && Sorted(all) && Downward(gone) && Downward(later)
    requires 1 <= limit <= |kept| && forall t: real | gone(t) :: later(t)
    ensures |Kept(all, later)| < limit <==> later(kept[|kept| - limit])
    decreases |all|
  {
    var t := all[0];
    if gone(t) {
      FewerLater(all[1..], kept, gone, later, limit);
    } else {
      NoneGone(all, gone);
      FewerThan(all, later, limit);
    }
  }

  lemma OutGrows(window: real, now: real, later: real)
    requires now <= later
    ensures forall t: real | Out(window, now)(t) :: Out(window, later)(t)
  {
  }

  /** At a later moment a limit is lifted exactly when the failures before its last are
      out of the window. */
  lemma LiftedIff(all: seq<real>, times: seq<real>, window: real, now: real, later: real, limit: nat)
    requires Sorted(all) && times == Kept(all, Out(window, now)) && 1 <= limit <= |times| && now <= later
    ensures |Kept(all, Out(window, later))| < limit <==> times[|times| - limit] <= later - window
  {
    OutIsDownward(window, now);
    OutIsDownward(window, later);
    OutGrows(window, now, later);
    FewerLater(all, times, Out(window, now), Out(window, later), limit);
  }

  /** So it does after attempts one at a time, which leave no bucket beyond its limit. */
  lemma WaitLifts(limits: Limits, log: seq<Event>, key: Key, window: real, now: real)
    requires Sorted(Since(log, key)) && Bounded(limits, log, window, now)
    requires LimitOf(limits, key) > 0 && Reached(limits, log, window, now, key)
    ensures !Reached(limits, log, window, now + WaitFor(InWindow(log, key, window, now), window, now), key)
  {
    assert BoundedAt(limits, log, window, now, key);
    WaitLiftsIff(log, key, window, now, LimitOf(limits, key));
  }

  /** With a limit of one: two attempts failed. */
  function OverLimit(key: Key): seq<Event> { [Failure([key], 0.0), Failure([key], 5.0)] }

  /** A failure more than the limit, and waiting is not enough. */
  lemma OneTooMany(key: Key)
    ensures InWindow(OverLimit(key), key, 10.0, 5.0) == [0.0, 5.0]
    ensures InWindow(OverLimit(key), key, 10.0, 10.0) == [5.0]
  {
    var log := OverLimit(key);
    SinceSnoc([], log[0], key);
    SinceSnoc([log[0]], log[1], key);
    assert log == [log[0]] + [log[1]] && [] + [log[0]] == [log[0]];
    assert Since(log, key) == [0.0, 5.0];
    assert [0.0, 5.0][1..] == [5.0] && [5.0][1..] == [];
  }

  /** Who has a failure more than the limit and waits the time told is blocked still. */
  method WaitAsTold(throttle: SignInThrottle, address: string) returns (wait: Option<real>, still: Option<real>)
    requires throttle.Valid() && throttle.limits == Limits(0, 1) && throttle.window == 10.0
    requires throttle.now == 5.0 && throttle.log == OverLimit(OfAddress(address))
    modifies throttle
    ensures wait.Some? && still.Some?
  {
    ghost var key := OfAddress(address);
    assert KeysOf(throttle.limits, address, None) == [key];
    OneTooMany(key);
    wait := throttle.RetryAfter(address, None);
    assert wait == Some(5.0);
    throttle.Advance(wait.value);
    still := throttle.RetryAfter(address, None);
  }

  /** Two attempts that overlap: neither is blocked, for neither has failed yet. They may
      leave a bucket beyond its limit, and then who waits the time told is blocked still. */
  method OverlappingAttemptsWaitLonger(address: string)
    returns (one: Option<real>, other: Option<real>, wait: Option<real>, still: Option<real>)
    ensures one.None? && other.None? && wait.Some? && still.Some?
  {
    var throttle := new SignInThrottle(Limits(0, 1), 10.0);
    assert KeysOf(throttle.limits, address, None) == [OfAddress(address)];
    one := throttle.RetryAfter(address, None);
    other := throttle.RetryAfter(address, None);
    var _ := throttle.RecordFailure(address, None);
    throttle.Advance(5.0);
    var _ := throttle.RecordFailure(address, None);
    assert throttle.log == OverLimit(OfAddress(address));
    wait, still := WaitAsTold(throttle, address);
  }
}
