/**
 * The rolling log of timestamps that both detectors keep: the entries of a
 * log that are still inside a window of `windowMs` milliseconds ending at
 * `now`, in their original order. The source writes this as
 * `log.filter(time => now - time < windowMs)`.
 */
module RateWindow {

  /** A timestamp lies inside the window when less than `windowMs` has passed since it. */
  predicate InWindow(t: int, now: int, windowMs: int) {
    now - t < windowMs
  }

  /** The entries of `log` inside the window, in order. */
  function Recent(log: seq<int>, now: int, windowMs: int): (r: seq<int>)
    ensures |r| <= |log|
    ensures forall i :: 0 <= i < |r| ==> InWindow(r[i], now, windowMs)
  {
    if log == [] then []
    else
      var last := log[|log| - 1];
      Recent(log[..|log| - 1], now, windowMs) + (if InWindow(last, now, windowMs) then [last] else [])
  }

  /** Pruning keeps every in-window occurrence of a timestamp and drops every other one. */
  lemma {:induction false} RecentMultiplicity(log: seq<int>, now: int, windowMs: int, t: int)
    ensures multiset(Recent(log, now, windowMs))[t] ==
            if InWindow(t, now, windowMs) then multiset(log)[t] else 0
  {
    if log != [] {
      var init := log[..|log| - 1];
      RecentMultiplicity(init, now, windowMs, t);
      assert log == init + [log[|log| - 1]];
    }
  }

  /** So a timestamp survives pruning exactly when it was logged and lies inside the window. */
  lemma RecentMembers(log: seq<int>, now: int, windowMs: int, t: int)
    ensures t in Recent(log, now, windowMs) <==> t in log && InWindow(t, now, windowMs)
  {
    RecentMultiplicity(log, now, windowMs, t);
    assert t in Recent(log, now, windowMs) <==> t in multiset(Recent(log, now, windowMs));
    assert t in log <==> t in multiset(log);
  }

  /** A log whose entries are all inside the window is kept whole. */
  lemma {:induction false} RecentKeepsWindow(log: seq<int>, now: int, windowMs: int)
    requires forall i :: 0 <= i < |log| ==> InWindow(log[i], now, windowMs)
    ensures Recent(log, now, windowMs) == log
  {
    if log != [] {
      RecentKeepsWindow(log[..|log| - 1], now, windowMs);
    }
  }

  /**
   * Pruning at an earlier time loses nothing that pruning later would keep:
   * what a log persisted at `now` holds at `later` is what the unpruned log
   * would hold at `later`.
   */
  lemma {:induction false} RecentLater(log: seq<int>, now: int, later: int, windowMs: int)
    requires now <= later
    ensures Recent(Recent(log, now, windowMs), later, windowMs) == Recent(log, later, windowMs)
  {
    if log != [] {
      var init, last := log[..|log| - 1], log[|log| - 1];
      RecentLater(init, now, later, windowMs);
      var mid := Recent(init, now, windowMs);
      if InWindow(last, now, windowMs) {
        var pruned := mid + [last];
        assert pruned[..|pruned| - 1] == mid;
      } else {
        assert !InWindow(last, later, windowMs);
        assert Recent(log, now, windowMs) == mid;
      }
    }
  }

  /** Hence the count of a persisted log can only fall as time goes on. */
  lemma CountFallsLater(log: seq<int>, now: int, later: int, windowMs: int)
    requires now <= later
    ensures |Recent(log, later, windowMs)| <= |Recent(log, now, windowMs)|
  {
    RecentLater(log, now, later, windowMs);
  }

  /** `log.filter(time => now - time < windowMs)`, element by element. */
  method Prune(log: seq<int>, now: int, windowMs: int) returns (kept: seq<int>)
    ensures kept == Recent(log, now, windowMs)
  {
    kept := [];
    var i := 0;
    while i < |log|
      invariant 0 <= i <= |log|
      invariant kept == Recent(log[..i], now, windowMs)
    {
      assert log[..i + 1][..i] == log[..i];
      if now - log[i] < windowMs {
        kept := kept + [log[i]];
      }
      i := i + 1;
    }
    assert log[..|log|] == log;
  }
}
