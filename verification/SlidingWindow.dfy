/** Rate limits that count what happened in the last so long. Times are in microseconds. */
module SlidingWindow {
  const SECOND := 1_000_000
  const MINUTE := 60 * SECOND
  const HOUR := 60 * MINUTE

  /** How many times lie after `low`. */
  function Since(times: seq<int>, low: int): nat {
    if times == [] then 0
    else Since(times[..|times| - 1], low) + (if low < times[|times| - 1] then 1 else 0)
  }

  /** How many times lie in the window of this length that ends with `end`. */
  function InWindow(times: seq<int>, length: nat, end: int): nat {
    if times == [] then 0
    else InWindow(times[..|times| - 1], length, end) + (if end - length < times[|times| - 1] <= end then 1 else 0)
  }

  predicate UpTo(times: seq<int>, now: int) {
    forall i :: 0 <= i < |times| ==> times[i] <= now
  }

  predicate Sorted(times: seq<int>) {
    forall i, j :: 0 <= i <= j < |times| ==> times[i] <= times[j]
  }

  /** No window of this length, wherever it ends, holds more than `limit` times. */
  ghost predicate Limited(times: seq<int>, length: nat, limit: nat) {
    forall end: int :: InWindow(times, length, end) <= limit
  }

  lemma {:induction false} SinceIsWindow(times: seq<int>, length: nat, now: int)
    requires UpTo(times, now)
    ensures Since(times, now - length) == InWindow(times, length, now)
  {
    if times != [] {
      SinceIsWindow(times[..|times| - 1], length, now);
    }
  }

  lemma {:induction false} LaterSeesFewer(times: seq<int>, length: nat, now: int, end: int)
    requires UpTo(times, now) && now <= end
    ensures InWindow(times, length, end) <= InWindow(times, length, now)
  {
    if times != [] {
      LaterSeesFewer(times[..|times| - 1], length, now, end);
    }
  }

  /**
   Adding one more at `at` keeps the limit if fewer than the limit were seen at some moment `now` not
   later, and none since.
   */
  lemma Admit(times: seq<int>, length: nat, limit: nat, now: int, at: int)
    requires Limited(times, length, limit) && UpTo(times, now) && now <= at && Since(times, now - length) < limit
    ensures Limited(times + [at], length, limit)
  {
    SinceIsWindow(times, length, now);
    forall end: int ensures InWindow(times + [at], length, end) <= limit {
      assert (times + [at])[..|times|] == times;
      if at <= end {
        LaterSeesFewer(times, length, now, end);
      }
    }
  }

  lemma {:induction false} NoneSince(times: seq<int>, low: int)
    ensures Since(times, low) == 0 <==> UpTo(times, low)
  {
    if times != [] {
      NoneSince(times[..|times| - 1], low);
      assert UpTo(times, low) <==> UpTo(times[..|times| - 1], low) && times[|times| - 1] <= low;
    }
  }

  /** For times in order, the limit is reached exactly when the one so many from the end is still in the window. */
  lemma {:induction false} ReachedBy(times: seq<int>, low: int, limit: nat)
    requires Sorted(times) && limit > 0
    ensures Since(times, low) >= limit <==> |times| >= limit && low < times[|times| - limit]
  {
    if times != [] {
      var rest := times[..|times| - 1];
      if limit > 1 {
        ReachedBy(rest, low, limit - 1);
        assert |times| >= limit ==> rest[|rest| - (limit - 1)] == times[|times| - limit];
        if |times| >= limit && low < times[|times| - limit] {
          assert times[|times| - limit] <= times[|times| - 1];
        }
      } else if !(low < times[|times| - 1]) {
        NothingAfterLast(rest, low, times[|times| - 1]);
      }
    }
  }

  lemma NothingAfterLast(times: seq<int>, low: int, last: int)
    requires UpTo(times, last) && last <= low
    ensures Since(times, low) == 0
  {
    NoneSince(times, low);
  }
}
