/**
 * Worked runs of the detector with a small configuration: eye frame count 3,
 * mouth frame count 2, a 10-second alert window and a repeat count of 2.
 */
module Scenarios {
  import opened Wrappers
  import opened Config
  import opened DetectorModel
  import EventWindow

  const Small := DetectionConfig(0.23, 3, 0.7, 2, 10, 2)

  function Closed(t: real): Sample { Sample(0.1, 0.1, t) }
  function Open(t: real): Sample { Sample(0.3, 0.1, t) }

  /** Three closed-eye frames raise the alarm once, at the third frame. */
  lemma FirstEpisode()
    ensures var t := Run(Small, Init(), [Closed(0.0), Closed(1.0), Closed(2.0)]);
      t.final == State(3, 0, true, Some(2.0), [2.0]) && t.registrations == 1 && t.notifications == []
  {
    var s1 := Update(Small, Init(), 0.1, 0.1, 0.0).state;
    var s2 := Update(Small, s1, 0.1, 0.1, 1.0).state;
    assert s2 == State(2, 0, false, None, []);
    var o3 := Update(Small, s2, 0.1, 0.1, 2.0);
    assert o3.state == State(3, 0, true, Some(2.0), [2.0]);
  }

  /** Opening the eyes switches the alarm off and zeroes the eye counter at once. */
  lemma EyesReopen()
    ensures var o := Update(Small, State(3, 0, true, Some(2.0), [2.0]), 0.3, 0.1, 3.0);
      o.state == State(0, 0, false, Some(2.0), [2.0]) && !o.alarm && !o.registered
  {
  }

  /**
   * A second episode within the window: the window holds two events, which
   * reaches the repeat count, so an alert goes out with count 2.
   */
  lemma SecondEpisodeInWindow()
    ensures var o := Update(Small, State(2, 0, false, Some(2.0), [2.0]), 0.1, 0.1, 5.0);
      o.registered && o.state.drowsyEvents == [2.0, 5.0] && o.notified == Some(2)
  {
    assert [2.0] + [5.0] == [2.0, 5.0];
    assert !EventWindow.Stale(5.0, 2.0, 10.0);
    assert Register(Small, [2.0], 5.0).events == [2.0, 5.0];
  }

  /**
   * A second episode after the window: pruning drops the old event before the
   * count is compared, so no alert goes out.
   */
  lemma SecondEpisodeOutOfWindow()
    ensures var o := Update(Small, State(2, 0, false, Some(2.0), [2.0]), 0.1, 0.1, 15.0);
      o.registered && o.state.drowsyEvents == [15.0] && o.notified == None
  {
    assert [2.0] + [15.0] == [2.0, 15.0];
    assert [2.0, 15.0][1..] == [15.0];
    assert EventWindow.Pruned([15.0], 15.0, 10.0) == [15.0];
    assert Register(Small, [2.0], 15.0).events == [15.0];
  }

  /** Two open-mouth frames with open eyes: yawning on the second, never an alarm. */
  lemma Yawn()
    ensures var o1 := Update(Small, Init(), 0.3, 0.8, 0.0);
      var o2 := Update(Small, o1.state, 0.3, 0.8, 1.0);
      !o1.yawning && o2.yawning && !o1.alarm && !o2.alarm
  {
  }
}
