/**
 * Repeated closed-eyes episodes: each one registers exactly one drowsiness
 * event, and when they all fall within one alert window the alert goes out
 * once their number reaches the repeat count.
 */
module Episodes {
  import opened Wrappers
  import opened Config
  import opened EventWindow
  import opened DetectorModel

  /** Every frame's time lies in `[lo, hi]`. */
  predicate TimesIn(samples: seq<Sample>, lo: real, hi: real) {
    forall i :: 0 <= i < |samples| ==> lo <= samples[i].time <= hi
  }

  /** No event in the window happened before `lo`. */
  predicate EventsFrom(events: seq<real>, lo: real) {
    forall i :: 0 <= i < |events| ==> lo <= events[i]
  }

  /** Eyes open, no alarm: the state between two episodes. */
  predicate Resting(s: State) {
    s.earCounter == 0 && !s.alarmActive
  }

  /**
   * One episode: the eyes stay closed for at least the frame count, then the
   * last frame has them open.
   */
  predicate IsEpisode(cfg: DetectionConfig, e: seq<Sample>) {
    |e| >= 1 && |e| - 1 >= cfg.earConsecFrames &&
    (forall i :: 0 <= i < |e| - 1 ==> e[i].ear < cfg.earThreshold) &&
    e[|e| - 1].ear >= cfg.earThreshold
  }

  /** The frames of several episodes, one after the other. */
  function Concat(eps: seq<seq<Sample>>): seq<Sample>
    decreases |eps|
  {
    if eps == [] then [] else eps[0] + Concat(eps[1..])
  }

  /** With a positive frame count, one episode from rest registers exactly once and ends at rest. */
  lemma EpisodeRegistersOnce(cfg: DetectionConfig, s: State, e: seq<Sample>)
    requires cfg.earConsecFrames >= 1
    requires Resting(s) && IsEpisode(cfg, e)
    ensures Run(cfg, s, e).registrations == 1 && Resting(Run(cfg, s, e).final)
  {
    var closed, last := e[..|e| - 1], e[|e| - 1];
    assert e == closed + [last];
    RunSplits(cfg, s, closed, [last]);
    ClosedEpisode(cfg, s, closed);
    var mid := Run(cfg, s, closed).final;
    OpenFrameEndsEpisode(cfg, mid, last.ear, last.mar, last.time);
  }

  /** Every episode of a sequence of episodes from rest registers exactly once. */
  lemma {:induction false} EpisodesRegisterEach(cfg: DetectionConfig, s: State, eps: seq<seq<Sample>>)
    requires cfg.earConsecFrames >= 1
    requires Resting(s)
    requires forall i :: 0 <= i < |eps| ==> IsEpisode(cfg, eps[i])
    ensures Run(cfg, s, Concat(eps)).registrations == |eps|
    ensures Resting(Run(cfg, s, Concat(eps)).final)
    decreases |eps|
  {
    if eps != [] {
      RunSplits(cfg, s, eps[0], Concat(eps[1..]));
      EpisodeRegistersOnce(cfg, s, eps[0]);
      EpisodesRegisterEach(cfg, Run(cfg, s, eps[0]).final, eps[1..]);
    }
  }

  /**
   * Within one alert window nothing is pruned: a registration appends its time
   * and notifies exactly when the grown window reaches the repeat count.
   */
  lemma UpdateWithinWindow(cfg: DetectionConfig, s: State, ear: real, mar: real, now: real, lo: real)
    requires lo <= now <= lo + cfg.Window()
    requires EventsFrom(s.drowsyEvents, lo)
    ensures var o := Update(cfg, s, ear, mar, now);
      EventsFrom(o.state.drowsyEvents, lo) &&
      (o.registered ==>
        o.state.drowsyEvents == s.drowsyEvents + [now] &&
        o.notified == if |s.drowsyEvents| + 1 >= cfg.alertRepeatCount
                      then Some(|s.drowsyEvents| + 1) else None)
  {
    var events := s.drowsyEvents + [now];
    assert events[0] == if s.drowsyEvents == [] then now else s.drowsyEvents[0];
    PrunedIsUnique(events, now, cfg.Window(), 0);
    assert forall i :: 0 <= i < |events| ==> lo <= events[i];
  }

  /**
   * Over frames that all fall within one alert window, every registration
   * grows the window by one, and once the window reaches the repeat count the
   * last alert carries the total number of events.
   */
  lemma {:induction false} RunWithinWindow(cfg: DetectionConfig, s: State, samples: seq<Sample>, lo: real)
    requires TimesIn(samples, lo, lo + cfg.Window())
    requires EventsFrom(s.drowsyEvents, lo)
    ensures var t := Run(cfg, s, samples);
      EventsFrom(t.final.drowsyEvents, lo) &&
      |t.final.drowsyEvents| == |s.drowsyEvents| + t.registrations &&
      (t.registrations == 0 ==> t.notifications == []) &&
      (t.registrations > 0 && |s.drowsyEvents| + t.registrations >= cfg.alertRepeatCount ==>
        t.notifications != [] &&
        t.notifications[|t.notifications| - 1] == |s.drowsyEvents| + t.registrations)
    decreases |samples|
  {
    if samples != [] {
      var x := samples[0];
      var o := Update(cfg, s, x.ear, x.mar, x.time);
      UpdateWithinWindow(cfg, s, x.ear, x.mar, x.time, lo);
      assert TimesIn(samples[1..], lo, lo + cfg.Window()) by {
        assert forall i :: 0 <= i < |samples| - 1 ==> samples[1..][i] == samples[i + 1];
      }
      RunWithinWindow(cfg, o.state, samples[1..], lo);
    }
  }

  /**
   * Closing the eyes for the frame count and opening them again, repeated at
   * least the repeat count of times within one alert window, starting from a
   * fresh detector, gives one registration per episode and at least one
   * alert, the last of which carries the number of episodes.
   */
  lemma RepeatedEpisodesAlert(cfg: DetectionConfig, eps: seq<seq<Sample>>, lo: real)
    requires cfg.earConsecFrames >= 1
    requires forall i :: 0 <= i < |eps| ==> IsEpisode(cfg, eps[i])
    requires |eps| >= 1 && |eps| >= cfg.alertRepeatCount
    requires TimesIn(Concat(eps), lo, lo + cfg.Window())
    ensures var t := Run(cfg, Init(), Concat(eps));
      t.registrations == |eps| &&
      t.notifications != [] && t.notifications[|t.notifications| - 1] == |eps|
  {
    EpisodesRegisterEach(cfg, Init(), eps);
    RunWithinWindow(cfg, Init(), Concat(eps), lo);
  }
}
