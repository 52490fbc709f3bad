/** Times kept in a queue that is pruned from the left, against all the times there
    ever were. */
module SlidingWindow {
  ghost predicate Sorted(times: seq<real>) { forall i, j | 0 <= i < j < |times| :: times[i] <= times[j] }

  /** What is gone stays gone, and with it everything before. */
  ghost predicate Downward(gone: real -> bool) { forall a: real, b: real | b <= a && gone(a) :: gone(b) }

  /** The queue without its leading times that are gone. */
  function Pruned(times: seq<real>, gone: real -> bool): seq<real>
    decreases |times|
  {
    if times != [] && gone(times[0]) then Pruned(times[1..], gone) else times
  }

  /** All times that are not gone. */
  function Kept(times: seq<real>, gone: real -> bool): seq<real> {
    if times == [] then []
    else (if gone(times[0]) then [] else [times[0]]) + Kept(times[1..], gone)
  }

  lemma {:induction false} NoneGone(times: seq<real>, gone: real -> bool)
    requires forall i | 0 <= i < |times| :: !gone(times[i])
    ensures Kept(times, gone) == times
    decreases |times|
  {
    if times != [] {
      NoneGone(times[1..], gone);
    }
  }

  /** Pruning a sorted queue from the left takes out exactly what is gone. */
  lemma {:induction false} PrunedIsKept(times: seq<real>, gone: real -> bool)
    requires Sorted(times) && Downward(gone)
    ensures Pruned(times, gone) == Kept(times, gone)
    decreases |times|
  {
    if times != [] && gone(times[0]) {
      PrunedIsKept(times[1..], gone);
    } else if times != [] {
      NoneGone(times, gone);
    }
  }

  /** A queue holds the latest of all times, and what it does not hold is gone. */
  ghost predicate Covers(all: seq<real>, queue: seq<real>, gone: real -> bool) {
    && |queue| <= |all|
    && all[|all| - |queue|..] == queue
    && forall i | 0 <= i < |all| - |queue| :: gone(all[i])
  }

  lemma {:induction false} PrunedThrough(all: seq<real>, n: nat, gone: real -> bool)
    requires n <= |all| && forall i | 0 <= i < n :: gone(all[i])
    ensures Pruned(all, gone) == Pruned(all[n..], gone)
    decreases n
  {
    if n > 0 {
      PrunedThrough(all[1..], n - 1, gone);
      assert all[1..][n - 1..] == all[n..];
    }
  }

  lemma CoversOneBefore(all: seq<real>, queue: seq<real>, gone: real -> bool)
    requires all != [] && gone(all[0]) && Covers(all[1..], queue, gone)
    ensures Covers(all, queue, gone)
  {
    var n := |all| - |queue|;
    assert all[n..] == all[1..][n - 1..];
    forall i | 0 <= i < n ensures gone(all[i]) {
      if i > 0 {
        assert all[i] == all[1..][i - 1];
      }
    }
  }

  lemma {:induction false} PrunedIsSuffix(times: seq<real>, gone: real -> bool)
    ensures Covers(times, Pruned(times, gone), gone)
    decreases |times|
  {
    if times != [] && gone(times[0]) {
      PrunedIsSuffix(times[1..], gone);
      CoversOneBefore(times, Pruned(times[1..], gone), gone);
    }
  }

  /** Pruning the queue is pruning all times. */
  lemma CoversPruned(all: seq<real>, queue: seq<real>, gone: real -> bool)
    requires Covers(all, queue, gone)
    ensures Pruned(queue, gone) == Pruned(all, gone) && Covers(all, Pruned(queue, gone), gone)
  {
    PrunedThrough(all, |all| - |queue|, gone);
    PrunedIsSuffix(all, gone);
  }

  lemma CoversOnward(all: seq<real>, queue: seq<real>, gone: real -> bool, goneNow: real -> bool)
    requires Covers(all, queue, gone) && forall t: real | gone(t) :: goneNow(t)
    ensures Covers(all, queue, goneNow)
  {
    forall i | 0 <= i < |all| - |queue| ensures goneNow(all[i]) {
      var t := all[i];
      assert gone(t);
    }
  }

  lemma CoversMore(all: seq<real>, queue: seq<real>, gone: real -> bool, t: real)
    requires Covers(all, queue, gone)
    ensures Covers(all + [t], queue + [t], gone)
  {
    assert (all + [t])[|all| - |queue|..] == all[|all| - |queue|..] + [t];
    assert forall i | 0 <= i < |all| - |queue| :: (all + [t])[i] == all[i];
  }

  lemma SortedMore(times: seq<real>, t: real)
    requires Sorted(times) && forall i | 0 <= i < |times| :: times[i] <= t
    ensures Sorted(times + [t])
  {
  }

  method PruneLeft(times: seq<real>, gone: real -> bool) returns (queue: seq<real>)
    ensures queue == Pruned(times, gone)
  {
    queue := times;
    while queue != [] && gone(queue[0])
      invariant Pruned(queue, gone) == Pruned(times, gone)
      decreases |queue|
    {
      queue := queue[1..];
    }
  }
}
