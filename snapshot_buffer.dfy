/**
 * The snapshot history: a bounded FIFO of timestamped positions (oldest first), the
 * overflow-evicting push, and the two-phase pruning that runs before every resolve.
 */
module SnapshotBuffer {
  import opened Vectors

  /** One entry of the history: a position and the local time at which it was admitted. */
  datatype TransformState = TransformState(position: Vec3, timestamp: real)

  /** `r` is what is left of `s` after removing some entries from its front. */
  predicate IsSuffix<T(==)>(r: seq<T>, s: seq<T>) {
    |r| <= |s| && r == s[|s| - |r|..]
  }

  /** The history never goes back in time from oldest to newest. */
  predicate NonDecreasing(s: seq<TransformState>) {
    forall i, j :: 0 <= i <= j < |s| ==> s[i].timestamp <= s[j].timestamp
  }

  /** No entry of `s` is stamped later than `now`. */
  predicate NotAfter(s: seq<TransformState>, now: real) {
    forall i :: 0 <= i < |s| ==> s[i].timestamp <= now
  }

  /**
   * Queue.Enqueue followed by one Dequeue when the count exceeds the capacity: the new
   * element is appended and at most the single oldest element is evicted.
   */
  function Enqueued<T(==)>(q: seq<T>, x: T, capacity: nat): (r: seq<T>)
    ensures |r| == if |q| + 1 > capacity then |q| else |q| + 1
    ensures |q| <= capacity ==> |r| <= capacity
    ensures capacity >= 1 ==> |r| >= 1 && r[|r| - 1] == x
  {
    var pushed := q + [x];
    if |pushed| > capacity then pushed[1..] else pushed
  }

  /** A push appends the new element and evicts, if anything, only from the front. */
  lemma EnqueuedIsSuffix<T>(q: seq<T>, x: T, capacity: nat)
    ensures IsSuffix(Enqueued(q, x, capacity), q + [x])
  {
  }

  /** A sequence of pushes, one after another. */
  function EnqueuedAll<T(==)>(q: seq<T>, xs: seq<T>, capacity: nat): seq<T>
    decreases |xs|
  {
    if |xs| == 0 then q else EnqueuedAll(Enqueued(q, xs[0], capacity), xs[1..], capacity)
  }

  /**
   * No sequence of pushes makes a queue longer than its capacity or than it already was;
   * in particular a queue within its capacity stays within it.
   */
  lemma {:induction false} EnqueuedAllBounded<T>(q: seq<T>, xs: seq<T>, capacity: nat)
    ensures |EnqueuedAll(q, xs, capacity)| <= if |q| <= capacity then capacity else |q|
    decreases |xs|
  {
    if |xs| != 0 {
      EnqueuedAllBounded(Enqueued(q, xs[0], capacity), xs[1..], capacity);
    }
  }

  /**
   * Phase 1 of PruneOldStates: drop the oldest entry while at least two remain and it is
   * older than the cutoff. The result is never empty when the input is not, and its head
   * (when two or more remain) is not older than the cutoff.
   */
  function DropBeforeCutoff(s: seq<TransformState>, cutoff: real): (r: seq<TransformState>)
    ensures |s| >= 1 ==> |r| >= 1
    ensures |r| <= 1 || r[0].timestamp >= cutoff
    decreases |s|
  {
    if |s| >= 2 && s[0].timestamp < cutoff then DropBeforeCutoff(s[1..], cutoff) else s
  }

  /** Phase 1 removes entries only from the front. */
  lemma {:induction false} DropBeforeCutoffIsSuffix(s: seq<TransformState>, cutoff: real)
    ensures IsSuffix(DropBeforeCutoff(s, cutoff), s)
    decreases |s|
  {
    if |s| >= 2 && s[0].timestamp < cutoff {
      DropBeforeCutoffIsSuffix(s[1..], cutoff);
      var r := DropBeforeCutoff(s, cutoff);
      assert s[1..][|s| - 1 - |r|..] == s[|s| - |r|..];
    }
  }

  /** Every entry phase 1 drops was older than the cutoff. */
  lemma {:induction false} DropBeforeCutoffRemovesOnlyOld(s: seq<TransformState>, cutoff: real)
    ensures forall j :: 0 <= j < |s| - |DropBeforeCutoff(s, cutoff)| ==> s[j].timestamp < cutoff
    decreases |s|
  {
    if |s| >= 2 && s[0].timestamp < cutoff {
      DropBeforeCutoffRemovesOnlyOld(s[1..], cutoff);
      forall j | 0 < j < |s| - |DropBeforeCutoff(s, cutoff)| ensures s[j].timestamp < cutoff {
        assert s[j] == s[1..][j - 1];
      }
    }
  }

  /**
   * Phase 2 of PruneOldStates: drop the oldest entry while it is more than `maxAge`
   * older than `now`. The result is empty or starts with a fresh entry.
   */
  function DropStale(s: seq<TransformState>, now: real, maxAge: real): (r: seq<TransformState>)
    ensures |r| == 0 || now - r[0].timestamp <= maxAge
    decreases |s|
  {
    if |s| > 0 && now - s[0].timestamp > maxAge then DropStale(s[1..], now, maxAge) else s
  }

  /** Phase 2 removes entries only from the front. */
  lemma {:induction false} DropStaleIsSuffix(s: seq<TransformState>, now: real, maxAge: real)
    ensures IsSuffix(DropStale(s, now, maxAge), s)
    decreases |s|
  {
    if |s| > 0 && now - s[0].timestamp > maxAge {
      DropStaleIsSuffix(s[1..], now, maxAge);
      var r := DropStale(s, now, maxAge);
      assert s[1..][|s| - 1 - |r|..] == s[|s| - |r|..];
    }
  }

  /** Every entry phase 2 drops was stale. */
  lemma {:induction false} DropStaleRemovesOnlyStale(s: seq<TransformState>, now: real, maxAge: real)
    ensures forall j :: 0 <= j < |s| - |DropStale(s, now, maxAge)| ==> now - s[j].timestamp > maxAge
    decreases |s|
  {
    if |s| > 0 && now - s[0].timestamp > maxAge {
      DropStaleRemovesOnlyStale(s[1..], now, maxAge);
      forall j | 0 < j < |s| - |DropStale(s, now, maxAge)| ensures now - s[j].timestamp > maxAge {
        assert s[j] == s[1..][j - 1];
      }
    }
  }

  /** Cutting a suffix off a suffix gives a suffix. */
  lemma SuffixTransitive<T>(r: seq<T>, m: seq<T>, s: seq<T>)
    requires IsSuffix(r, m) && IsSuffix(m, s)
    ensures IsSuffix(r, s)
  {
    assert s[|s| - |m|..][|m| - |r|..] == s[|s| - |r|..];
  }

  /** Both phases of PruneOldStates, in order. */
  function Pruned(s: seq<TransformState>, cutoff: real, now: real, maxAge: real): seq<TransformState> {
    DropStale(DropBeforeCutoff(s, cutoff), now, maxAge)
  }

  /** A suffix of a non-decreasing history is non-decreasing. */
  lemma SuffixNonDecreasing(r: seq<TransformState>, s: seq<TransformState>)
    requires IsSuffix(r, s) && NonDecreasing(s)
    ensures NonDecreasing(r)
  {
    var k := |s| - |r|;
    forall i, j | 0 <= i <= j < |r| ensures r[i].timestamp <= r[j].timestamp {
      assert r[i] == s[k + i] && r[j] == s[k + j];
    }
  }

  /** Pruning removes only from the front, so the result is an order-preserving suffix. */
  lemma PrunedIsSuffix(s: seq<TransformState>, cutoff: real, now: real, maxAge: real)
    ensures IsSuffix(Pruned(s, cutoff, now, maxAge), s)
  {
    var r1 := DropBeforeCutoff(s, cutoff);
    DropBeforeCutoffIsSuffix(s, cutoff);
    DropStaleIsSuffix(r1, now, maxAge);
    SuffixTransitive(Pruned(s, cutoff, now, maxAge), r1, s);
  }

  /** Pruning keeps an in-order history in order. */
  lemma PrunedNonDecreasing(s: seq<TransformState>, cutoff: real, now: real, maxAge: real)
    requires NonDecreasing(s)
    ensures NonDecreasing(Pruned(s, cutoff, now, maxAge))
  {
    PrunedIsSuffix(s, cutoff, now, maxAge);
    SuffixNonDecreasing(Pruned(s, cutoff, now, maxAge), s);
  }

  /**
   * When the history's timestamps never decrease, no entry that survives pruning is more
   * than `maxAge` older than `now`.
   */
  lemma PrunedAllFresh(s: seq<TransformState>, cutoff: real, now: real, maxAge: real)
    requires NonDecreasing(s)
    ensures forall i :: 0 <= i < |Pruned(s, cutoff, now, maxAge)| ==>
              now - Pruned(s, cutoff, now, maxAge)[i].timestamp <= maxAge
  {
    var r := Pruned(s, cutoff, now, maxAge);
    PrunedNonDecreasing(s, cutoff, now, maxAge);
    forall i | 0 <= i < |r| ensures now - r[i].timestamp <= maxAge {
      assert r[0].timestamp <= r[i].timestamp;
    }
  }

  /**
   * The last entry of a history survives phase 2 whenever it is itself fresh, because the
   * loop stops at the first fresh entry it meets.
   */
  lemma {:induction false} DropStaleKeepsFreshLast(s: seq<TransformState>, now: real, maxAge: real)
    requires |s| >= 1 && now - s[|s| - 1].timestamp <= maxAge
    ensures |DropStale(s, now, maxAge)| >= 1
    ensures DropStale(s, now, maxAge)[|DropStale(s, now, maxAge)| - 1] == s[|s| - 1]
    decreases |s|
  {
    if now - s[0].timestamp > maxAge {
      DropStaleKeepsFreshLast(s[1..], now, maxAge);
      assert s[1..][|s| - 2] == s[|s| - 1];
    }
  }

  /**
   * Pruning never removes a fresh newest entry: phase 1 always keeps the last entry, and
   * phase 2 stops at the first fresh entry it meets.
   */
  lemma PrunedKeepsFreshLast(s: seq<TransformState>, cutoff: real, now: real, maxAge: real)
    requires |s| >= 1 && now - s[|s| - 1].timestamp <= maxAge
    ensures |Pruned(s, cutoff, now, maxAge)| >= 1
    ensures Pruned(s, cutoff, now, maxAge)[|Pruned(s, cutoff, now, maxAge)| - 1] == s[|s| - 1]
  {
    var r1 := DropBeforeCutoff(s, cutoff);
    DropBeforeCutoffIsSuffix(s, cutoff);
    SuffixKeepsLast(r1, s);
    DropStaleKeepsFreshLast(r1, now, maxAge);
  }

  /** A non-empty suffix ends with the same element as the sequence it was cut from. */
  lemma SuffixKeepsLast<T>(r: seq<T>, s: seq<T>)
    requires IsSuffix(r, s) && |r| >= 1
    ensures r[|r| - 1] == s[|s| - 1]
  {
    assert r[|r| - 1] == s[|s| - |r|..][|r| - 1];
  }

  /** Appending an entry stamped no earlier than every other keeps the history in order. */
  lemma EnqueuedNonDecreasing(s: seq<TransformState>, x: TransformState, capacity: nat)
    requires NonDecreasing(s) && NotAfter(s, x.timestamp)
    ensures NonDecreasing(Enqueued(s, x, capacity))
  {
    var pushed := s + [x];
    forall i, j | 0 <= i <= j < |pushed| ensures pushed[i].timestamp <= pushed[j].timestamp {
      if j == |s| {
        assert pushed[j] == x;
        if i < |s| { assert pushed[i] == s[i]; }
      } else {
        assert pushed[i] == s[i] && pushed[j] == s[j];
      }
    }
    EnqueuedIsSuffix(s, x, capacity);
    SuffixNonDecreasing(Enqueued(s, x, capacity), pushed);
  }

  /**
   * With timestamps in order, pruning leaves no entry older than the cutoff at the head:
   * once two or more entries remain, the oldest is not older than the cutoff.
   */
  lemma PrunedHeadNotBeforeCutoff(s: seq<TransformState>, cutoff: real, now: real, maxAge: real)
    requires NonDecreasing(s)
    requires |Pruned(s, cutoff, now, maxAge)| >= 2
    ensures Pruned(s, cutoff, now, maxAge)[0].timestamp >= cutoff
  {
    var r1 := DropBeforeCutoff(s, cutoff);
    var r := DropStale(r1, now, maxAge);
    DropBeforeCutoffIsSuffix(s, cutoff);
    DropStaleIsSuffix(r1, now, maxAge);
    SuffixNonDecreasing(r1, s);
    var k := |r1| - |r|;
    assert r[0] == r1[k];
    assert r1[0].timestamp <= r1[k].timestamp;
  }
}
