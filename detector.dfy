/**
 * The drowsiness detector: a per-session object that turns per-frame eye and
 * mouth aspect ratios into the alarm and yawning flags, keeps a sliding
 * window of drowsiness events and sends out an alert when they repeat.
 * Every method is proved to change the fields exactly as the functions of
 * `DetectorModel` describe.
 */
module Detector {
  import opened Wrappers
  import opened Config
  import opened EventWindow
  import opened DetectorModel

  class DrowsinessDetector {
    const config: DetectionConfig
    var earCounter: nat
    var marCounter: nat
    var alarmActive: bool
    var lastAlarmTime: Option<real>
    /** Drowsiness timestamps, oldest first; only the front is ever removed. */
    var drowsyEvents: seq<real>
    /** The event counts the alerts were sent with, in order. */
    ghost var notifications: seq<nat>

    /** The fields as a `DetectorModel.State` value. */
    ghost function Snapshot(): State
      reads this
    {
      State(earCounter, marCounter, alarmActive, lastAlarmTime, drowsyEvents)
    }

    /** The alarm is only on once the eyes have been closed long enough. */
    ghost predicate Valid()
      reads this
    {
      AlarmJustified(config, Snapshot())
    }

    constructor (config: DetectionConfig)
      ensures this.config == config
      ensures Snapshot() == Init() && notifications == []
      ensures Valid()
    {
      this.config := config;
      earCounter := 0;
      marCounter := 0;
      drowsyEvents := [];
      alarmActive := false;
      lastAlarmTime := None;
      notifications := [];
    }

    /** The alert sent with `count`, recorded in the notification log. */
    method SendGpsAlert(count: nat)
      modifies this`notifications
      ensures notifications == old(notifications) + [count]
    {
      notifications := notifications + [count];
    }

    /** Drops events from the front of the window while they are stale at `now`. */
    method PruneEvents(now: real)
      modifies this`drowsyEvents
      ensures drowsyEvents == Pruned(old(drowsyEvents), now, config.Window())
      ensures |drowsyEvents| <= |old(drowsyEvents)|
      ensures drowsyEvents == old(drowsyEvents)[|old(drowsyEvents)| - |drowsyEvents|..]
      ensures drowsyEvents != [] ==> now - drowsyEvents[0] <= config.Window()
    {
      PrunedSuffix(drowsyEvents, now, config.Window());
      ghost var target := Pruned(drowsyEvents, now, config.Window());
      while drowsyEvents != [] && now - drowsyEvents[0] > config.Window()
        invariant Pruned(drowsyEvents, now, config.Window()) == target
        decreases |drowsyEvents|
      {
        drowsyEvents := drowsyEvents[1..];
      }
      assert drowsyEvents == Pruned(drowsyEvents, now, config.Window());
    }

    /**
     * Records a drowsiness event at `now`, prunes the window, and sends an
     * alert with the window's size when it holds at least the repeat count.
     */
    method RegisterDrowsiness(now: real)
      modifies this`drowsyEvents, this`notifications
      ensures var r := Register(config, old(drowsyEvents), now);
        drowsyEvents == r.events && notifications == old(notifications) + NotificationLog(r.notified)
      ensures config.alertWindowSeconds >= 0 ==> drowsyEvents != [] && drowsyEvents[|drowsyEvents| - 1] == now
      ensures Sorted(old(drowsyEvents)) && NotAfter(old(drowsyEvents), now) ==>
        Sorted(drowsyEvents) && WithinWindow(drowsyEvents, now, config.Window())
    {
      ghost var before := drowsyEvents;
      drowsyEvents := drowsyEvents + [now];
      PruneEvents(now);
      if |drowsyEvents| >= config.alertRepeatCount {
        SendGpsAlert(|drowsyEvents|);
      }
      RegisterAppends(config, before, now);
      if Sorted(before) && NotAfter(before, now) {
        RegisterSorted(config, before, now);
      }
    }

    /**
     * Processes one frame and returns the alarm and yawning flags. Afterwards
     * the alarm is on exactly when the eyes have been closed for the frame
     * count, the returned alarm is the alarm field, and yawning is reported
     * exactly when the mouth has been open for its frame count.
     */
    method UpdateAlarm(ear: real, mar: real, now: real) returns (alarm: bool, yawning: bool)
      requires Valid()
      modifies this
      ensures Valid()
      ensures var o := Update(config, old(Snapshot()), ear, mar, now);
        Snapshot() == o.state && alarm == o.alarm && yawning == o.yawning &&
        notifications == old(notifications) + NotificationLog(o.notified)
      ensures alarm == alarmActive
      ensures alarmActive <==> earCounter >= config.earConsecFrames
      ensures yawning <==> marCounter >= config.marConsecFrames
    {
      ghost var before := Snapshot();
      UpdateSettles(config, before, ear, mar, now);
      yawning := false;
      if ear < config.earThreshold {
        earCounter := earCounter + 1;
      } else {
        earCounter := 0;
        alarmActive := false;
      }

      if mar > config.marThreshold {
        marCounter := marCounter + 1;
      } else {
        marCounter := 0;
      }

      if marCounter >= config.marConsecFrames {
        yawning := true;
      }

      if earCounter >= config.earConsecFrames {
        if !alarmActive {
          alarmActive := true;
          lastAlarmTime := Some(now);
          RegisterDrowsiness(now);
        }
      }

      alarm := alarmActive;
    }
  }
}
