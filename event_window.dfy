/**
 * The sliding window of drowsiness timestamps: what pruning the front of the
 * window leaves behind, and the set of events that really are recent.
 */
module EventWindow {

  /** An event at time `e` is too old at time `now` for a window of `window` seconds. */
  predicate Stale(now: real, e: real, window: real) {
    now - e > window
  }

  predicate Sorted(s: seq<real>) {
    forall i, j :: 0 <= i < j < |s| ==> s[i] <= s[j]
  }

  /** Every event happened no later than `now`. */
  predicate NotAfter(s: seq<real>, now: real) {
    forall i :: 0 <= i < |s| ==> s[i] <= now
  }

  /** No event is stale at `now`: every one lies within `window` seconds of it. */
  predicate WithinWindow(s: seq<real>, now: real, window: real) {
    forall i :: 0 <= i < |s| ==> now - s[i] <= window
  }

  /** What front pruning leaves: the events from the first one that is not stale onwards. */
  function Pruned(events: seq<real>, now: real, window: real): seq<real>
    decreases |events|
  {
    if events != [] && Stale(now, events[0], window) then Pruned(events[1..], now, window)
    else events
  }

  /**
   * What pruning guarantees: the result is a suffix of `events`, every
   * dropped event is stale, and the new front (if any) is not.
   */
  lemma {:induction false} PrunedSuffix(events: seq<real>, now: real, window: real)
    ensures var r := Pruned(events, now, window);
      |r| <= |events| && r == events[|events| - |r|..] &&
      (forall i :: 0 <= i < |events| - |r| ==> Stale(now, events[i], window)) &&
      (r != [] ==> !Stale(now, r[0], window))
    decreases |events|
  {
    if events != [] && Stale(now, events[0], window) {
      var tail := events[1..];
      PrunedSuffix(tail, now, window);
      var r := Pruned(tail, now, window);
      assert tail[|tail| - |r|..] == events[|events| - |r|..];
      assert forall i :: 1 <= i < |events| - |r| ==> events[i] == tail[i - 1];
    }
  }

  /** The events, in order, that are within the window at time `now`. */
  function Recent(events: seq<real>, now: real, window: real): seq<real>
    decreases |events|
  {
    if events == [] then []
    else
      var rest := Recent(events[1..], now, window);
      if Stale(now, events[0], window) then rest else [events[0]] + rest
  }

  /** `Recent` keeps an event exactly when it is not stale, and never grows the window. */
  lemma {:induction false} RecentMembers(events: seq<real>, now: real, window: real)
    ensures var r := Recent(events, now, window);
      |r| <= |events| && forall e :: e in r <==> e in events && !Stale(now, e, window)
    decreases |events|
  {
    if events != [] {
      RecentMembers(events[1..], now, window);
      assert forall e :: e in events <==> e == events[0] || e in events[1..];
    }
  }

  /**
   * The three properties of `Pruned` determine it: any suffix whose dropped
   * prefix is stale and whose front is not stale is the pruned window.
   */
  lemma PrunedIsUnique(events: seq<real>, now: real, window: real, k: nat)
    requires k <= |events|
    requires forall i :: 0 <= i < k ==> Stale(now, events[i], window)
    requires k < |events| ==> !Stale(now, events[k], window)
    ensures Pruned(events, now, window) == events[k..]
  {
    PrunedSuffix(events, now, window);
  }

  /** No suffix lying wholly in the window is longer than the pruned window. */
  lemma PrunedIsMaximal(events: seq<real>, now: real, window: real, k: nat)
    requires k <= |events|
    requires forall i :: k <= i < |events| ==> !Stale(now, events[i], window)
    ensures |events| - k <= |Pruned(events, now, window)|
  {
    PrunedSuffix(events, now, window);
    if k < |events| {
      ghost var first := events[k];
    }
  }

  /** Pruning twice at the same time removes nothing more. */
  lemma PrunedIdempotent(events: seq<real>, now: real, window: real)
    ensures Pruned(Pruned(events, now, window), now, window) == Pruned(events, now, window)
  {
    PrunedSuffix(events, now, window);
    PrunedIsUnique(Pruned(events, now, window), now, window, 0);
  }

  lemma {:induction false} RecentOfFresh(events: seq<real>, now: real, window: real)
    requires forall i :: 0 <= i < |events| ==> !Stale(now, events[i], window)
    ensures Recent(events, now, window) == events
    decreases |events|
  {
    if events != [] {
      RecentOfFresh(events[1..], now, window);
    }
  }

  /**
   * In a chronological window, front pruning drops exactly the stale events:
   * what is left is every recent event and nothing else.
   */
  lemma {:induction false} PrunedSortedIsRecent(events: seq<real>, now: real, window: real)
    requires Sorted(events)
    ensures Pruned(events, now, window) == Recent(events, now, window)
    ensures forall i :: 0 <= i < |Pruned(events, now, window)| ==>
      !Stale(now, Pruned(events, now, window)[i], window)
    decreases |events|
  {
    if events == [] {
    } else if Stale(now, events[0], window) {
      PrunedSortedIsRecent(events[1..], now, window);
      assert forall i :: 0 <= i < |events| - 1 ==> events[1..][i] == events[i + 1];
    } else {
      assert forall i :: 0 <= i < |events| ==> events[0] <= events[i];
      RecentOfFresh(events, now, window);
    }
  }

  /**
   * Appending the current time and pruning keeps it: when the window is not
   * negative the result ends with `now`.
   */
  lemma PrunedKeepsNow(events: seq<real>, now: real, window: real)
    requires window >= 0.0
    ensures var r := Pruned(events + [now], now, window);
      r != [] && r[|r| - 1] == now
  {
    var s := events + [now];
    PrunedSuffix(s, now, window);
    assert s[|s| - 1] == now;
  }

  lemma AppendSorted(events: seq<real>, now: real)
    requires Sorted(events) && NotAfter(events, now)
    ensures Sorted(events + [now]) && NotAfter(events + [now], now)
  {
    var s := events + [now];
    assert forall i :: 0 <= i < |events| ==> s[i] == events[i];
  }

  lemma SuffixSorted(s: seq<real>, k: nat, now: real)
    requires k <= |s|
    requires Sorted(s) && NotAfter(s, now)
    ensures Sorted(s[k..]) && NotAfter(s[k..], now)
  {
    assert forall i :: 0 <= i < |s| - k ==> s[k..][i] == s[k + i];
  }

  /**
   * When events arrive in time order, appending `now` and pruning keeps the
   * window chronological and leaves only events within `window` of `now`:
   * exactly the recent ones.
   */
  lemma PrunedAppendSorted(events: seq<real>, now: real, window: real)
    requires Sorted(events) && NotAfter(events, now)
    ensures var r := Pruned(events + [now], now, window);
      Sorted(r) && NotAfter(r, now) && WithinWindow(r, now, window) &&
      r == Recent(events + [now], now, window)
  {
    var s := events + [now];
    AppendSorted(events, now);
    PrunedSortedIsRecent(s, now, window);
    PrunedSuffix(s, now, window);
    var r := Pruned(s, now, window);
    SuffixSorted(s, |s| - |r|, now);
  }
}
