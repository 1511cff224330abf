/** The join-rate and message-rate trackers of the AntiRaid and AntiSpam cogs.

    Both cogs keep a `defaultdict(list)` of timestamps per key and, on every event,
    rebuild the key's list with a comprehension that keeps the timestamps `t` with
    `now - t <= window`, then append `now` and compare the list's length with a
    threshold. `Tracker` is that dict and that update; `Recent` is the comprehension. */
module SlidingWindow {

  /** The comprehension's test: `t` is kept at time `now`. */
  predicate InWindow(t: int, now: int, window: int) {
    now - t <= window
  }

  /** `[t for t in s if now - t <= window]` */
  function Recent(s: seq<int>, now: int, window: int): (r: seq<int>)
    ensures |r| <= |s|
  {
    if s == [] then []
    else
      var init, last := s[..|s| - 1], s[|s| - 1];
      Recent(init, now, window) + (if InWindow(last, now, window) then [last] else [])
  }

  /** A timestamp survives eviction exactly when it was in the list and is
      within the window: every stale one is dropped, every fresh one kept. */
  lemma {:induction false} RecentMembers(s: seq<int>, now: int, window: int)
    ensures forall t :: t in Recent(s, now, window) <==> t in s && InWindow(t, now, window)
  {
    if s != [] {
      var init, last := s[..|s| - 1], s[|s| - 1];
      assert s == init + [last];
      RecentMembers(init, now, window);
    }
  }

  /** A key's list after one event: the comprehension, then `.append(now)`. */
  function AfterRecord(s: seq<int>, now: int, window: int): seq<int> {
    Recent(s, now, window) + [now]
  }

  /** `idx` lists, in increasing order, exactly the positions of `s` whose
      timestamps are in the window, and `r` holds those timestamps in that order. */
  ghost predicate FilterWitness(r: seq<int>, s: seq<int>, idx: seq<nat>, now: int, window: int) {
    && |idx| == |r|
    && (forall i :: 0 <= i < |idx| ==> idx[i] < |s| && r[i] == s[idx[i]])
    && (forall i, j :: 0 <= i < j < |idx| ==> idx[i] < idx[j])
    && (forall j :: 0 <= j < |s| ==> (InWindow(s[j], now, window) <==> j in idx))
  }

  /** Appending an in-window timestamp extends a filter witness by its position. */
  lemma WitnessKeep(r: seq<int>, s: seq<int>, idx: seq<nat>, last: int, now: int, window: int)
    requires FilterWitness(r, s, idx, now, window) && InWindow(last, now, window)
    ensures FilterWitness(r + [last], s + [last], idx + [|s|], now, window)
  {
    var s', idx' := s + [last], idx + [|s|];
    forall j | 0 <= j < |s'| ensures InWindow(s'[j], now, window) <==> j in idx' {
      if j < |s| {
        assert s'[j] == s[j];
        assert j in idx' <==> j in idx;
      }
    }
  }

  /** Appending an out-of-window timestamp leaves a filter witness as it is. */
  lemma WitnessDrop(r: seq<int>, s: seq<int>, idx: seq<nat>, last: int, now: int, window: int)
    requires FilterWitness(r, s, idx, now, window) && !InWindow(last, now, window)
    ensures FilterWitness(r, s + [last], idx, now, window)
  {
    var s' := s + [last];
    forall j | 0 <= j < |s'| ensures InWindow(s'[j], now, window) <==> j in idx {
      if j < |s| {
        assert s'[j] == s[j];
      } else {
        assert j !in idx;
      }
    }
  }

  /** The retained timestamps are the in-window timestamps of the old list, each
      kept once and in their original relative order. */
  lemma {:induction false} RecentIsOrderedFilter(s: seq<int>, now: int, window: int)
    ensures exists idx :: FilterWitness(Recent(s, now, window), s, idx, now, window)
  {
    if s == [] {
      var none: seq<nat> := [];
      assert FilterWitness(Recent(s, now, window), s, none, now, window);
    } else {
      var init, last := s[..|s| - 1], s[|s| - 1];
      assert s == init + [last];
      RecentIsOrderedFilter(init, now, window);
      var ri := Recent(init, now, window);
      var idx: seq<nat> :| FilterWitness(ri, init, idx, now, window);
      if InWindow(last, now, window) {
        WitnessKeep(ri, init, idx, last, now, window);
        assert Recent(s, now, window) == ri + [last];
      } else {
        WitnessDrop(ri, init, idx, last, now, window);
        assert Recent(s, now, window) == ri;
      }
    }
  }

  /** When every timestamp is still in the window, nothing is evicted. */
  lemma {:induction false} RecentKeepsAllInWindow(s: seq<int>, now: int, window: int)
    requires forall i :: 0 <= i < |s| ==> InWindow(s[i], now, window)
    ensures Recent(s, now, window) == s
  {
    if s != [] {
      var init, last := s[..|s| - 1], s[|s| - 1];
      RecentKeepsAllInWindow(init, now, window);
      assert Recent(s, now, window) == init + [last];
      assert s == init + [last];
    }
  }

  /** When the first `k` timestamps have left the window and the rest have not
      (as in a list kept in time order), eviction drops exactly those `k`. */
  lemma {:induction false} RecentDropsStalePrefix(s: seq<int>, k: nat, now: int, window: int)
    requires k <= |s|
    requires forall i :: 0 <= i < k ==> !InWindow(s[i], now, window)
    requires forall i :: k <= i < |s| ==> InWindow(s[i], now, window)
    ensures Recent(s, now, window) == s[k..]
  {
    if s != [] {
      var init, last := s[..|s| - 1], s[|s| - 1];
      if k == |s| {
        RecentDropsStalePrefix(init, |init|, now, window);
        assert Recent(s, now, window) == Recent(init, now, window) + [];
      } else {
        RecentDropsStalePrefix(init, k, now, window);
        assert s[k..] == init[k..] + [last];
      }
    }
  }

  ghost predicate Sorted(s: seq<int>) {
    forall i, j :: 0 <= i < j < |s| ==> s[i] <= s[j]
  }

  /** Eviction keeps a list in insertion order sorted. */
  lemma {:induction false} RecentSorted(s: seq<int>, now: int, window: int)
    requires Sorted(s)
    ensures Sorted(Recent(s, now, window))
  {
    if s != [] {
      var init, last := s[..|s| - 1], s[|s| - 1];
      RecentSorted(init, now, window);
      RecentMembers(init, now, window);
      var ri := Recent(init, now, window);
      forall t | t in ri ensures t <= last {
        var k :| 0 <= k < |init| && init[k] == t;
        assert s[k] == t;
      }
      var r := Recent(s, now, window);
      if InWindow(last, now, window) {
        assert r == ri + [last];
        forall i, j | 0 <= i < j < |r| ensures r[i] <= r[j] {
          if j == |r| - 1 {
            assert r[i] == ri[i] && ri[i] in ri;
          } else {
            assert r[i] == ri[i] && r[j] == ri[j];
          }
        }
      } else {
        assert r == ri;
      }
    }
  }

  /** After an event, every retained old timestamp lies within the window of
      `now`, the list ends with `now`, and with a non-negative window the whole
      list lies within it. With a clock that never runs backwards the list stays
      sorted. */
  lemma RecordBounds(s: seq<int>, now: int, window: int)
    ensures var h := AfterRecord(s, now, window);
      && h[|h| - 1] == now
      && (forall i :: 0 <= i < |h| - 1 ==> InWindow(h[i], now, window))
      && (0 <= window ==> forall i :: 0 <= i < |h| ==> InWindow(h[i], now, window))
      && (Sorted(s) && (forall i :: 0 <= i < |s| ==> s[i] <= now) ==> Sorted(h))
  {
    var r := Recent(s, now, window);
    var h := AfterRecord(s, now, window);
    RecentMembers(s, now, window);
    assert forall i :: 0 <= i < |h| - 1 ==> h[i] == r[i] && h[i] in r;
    if Sorted(s) && (forall i :: 0 <= i < |s| ==> s[i] <= now) {
      RecentSorted(s, now, window);
      forall i | 0 <= i < |r| ensures r[i] <= now {
        assert r[i] in r;
      }
    }
  }

  /** The history a key has after events at `times`, starting from no history. */
  function Replay(times: seq<int>, window: int): (h: seq<int>)
    ensures times != [] ==> |h| >= 1 && h[|h| - 1] == times[|times| - 1]
  {
    if times == [] then []
    else AfterRecord(Replay(times[..|times| - 1], window), times[|times| - 1], window)
  }

  /** Every event of `times` lies within `window` of every earlier one. */
  ghost predicate WithinOneWindow(times: seq<int>, window: int) {
    forall i, j :: 0 <= i < j < |times| ==> InWindow(times[i], times[j], window)
  }

  /** A burst whose events all fall within one window is counted in full. */
  lemma {:induction false} BurstCountedInFull(times: seq<int>, window: int)
    requires WithinOneWindow(times, window)
    ensures Replay(times, window) == times
  {
    if times != [] {
      var n := |times| - 1;
      var init, now := times[..n], times[n];
      assert WithinOneWindow(init, window) by {
        forall i, j | 0 <= i < j < |init| ensures InWindow(init[i], init[j], window) {
          assert init[i] == times[i] && init[j] == times[j];
        }
      }
      BurstCountedInFull(init, window);
      forall i | 0 <= i < |init| ensures InWindow(init[i], now, window) {
        assert init[i] == times[i];
      }
      RecentKeepsAllInWindow(init, now, window);
      calc {
        Replay(times, window);
        AfterRecord(Replay(init, window), now, window);
        AfterRecord(init, now, window);
        init + [now];
        times;
      }
    }
  }

  /** Inside such a burst the threshold test `count > max` holds at the k-th event
      exactly when k exceeds the maximum: it first fires at event max + 1 and then
      fires again at every later event, with nothing suppressing it. */
  lemma BurstTriggersFromThreshold(times: seq<int>, window: int, max: int)
    requires WithinOneWindow(times, window)
    ensures forall k :: 1 <= k <= |times| ==> (|Replay(times[..k], window)| > max <==> k > max)
  {
    forall k | 1 <= k <= |times| ensures |Replay(times[..k], window)| == k {
      var p := times[..k];
      forall i, j | 0 <= i < j < |p| ensures InWindow(p[i], p[j], window) {
        assert p[i] == times[i] && p[j] == times[j];
      }
      BurstCountedInFull(p, window);
    }
  }

  /** The per-key timestamp lists of one cog (`join_history` or `msg_history`). */
  class Tracker<K(==)> {
    var history: map<K, seq<int>>

    constructor ()
      ensures history == map[]
    {
      history := map[];
    }

    /** `self.history[key]` on a `defaultdict(list)`: a missing key reads as empty. */
    function Timestamps(key: K): seq<int>
      reads this
    {
      if key in history then history[key] else []
    }

    /** Rebuild `key`'s list from its in-window timestamps, append `now` and
        return the new length. Every other key keeps its list. */
    method Record(key: K, now: int, window: int) returns (count: nat)
      modifies this
      ensures history == old(history)[key := AfterRecord(old(Timestamps(key)), now, window)]
      ensures count == |history[key]|
    {
      var before := Timestamps(key);
      var kept: seq<int> := [];
      var i := 0;
      while i < |before|
        invariant 0 <= i <= |before|
        invariant kept == Recent(before[..i], now, window)
      {
        assert before[..i + 1][..i] == before[..i];
        if now - before[i] <= window {
          kept := kept + [before[i]];
        }
        i := i + 1;
      }
      assert before[..|before|] == before;
      history := history[key := kept + [now]];
      count := |kept| + 1;
    }
  }
}
