/**
 * The drowsiness detector's behaviour as values: its state, one frame's
 * update, the registration of a drowsiness event, and runs over several
 * frames. The `Detector` class is proved to change its fields exactly as
 * these functions say; the lemmas here state what the detector promises.
 */
module DetectorModel {
  import opened Wrappers
  import opened Config
  import opened EventWindow

  /** The detector's mutable fields. */
  datatype State = State(
    earCounter: nat,
    marCounter: nat,
    alarmActive: bool,
    lastAlarmTime: Option<real>,
    drowsyEvents: seq<real>)

  /** What registering a drowsiness event leaves in the window, and the count sent out if any. */
  datatype Registration = Registration(events: seq<real>, notified: Option<nat>)

  /**
   * The result of one frame: the new state, the two returned flags, whether a
   * drowsiness event was registered and the count sent out if any.
   */
  datatype Outcome = Outcome(
    state: State,
    alarm: bool,
    yawning: bool,
    registered: bool,
    notified: Option<nat>)

  /** One frame's measurement. */
  datatype Sample = Sample(ear: real, mar: real, time: real)

  /** The result of a run of frames: the last state and the events along the way. */
  datatype Trace = Trace(final: State, registrations: nat, notifications: seq<nat>)

  /** A fresh detector: counters at zero, no alarm, no alarm time, no events. */
  function Init(): State {
    State(0, 0, false, None, [])
  }

  /** The notifications one registration adds to the log of sent alerts. */
  function NotificationLog(n: Option<nat>): seq<nat> {
    match n
    case None => []
    case Some(count) => [count]
  }

  /**
   * Registering a drowsiness event at `now`: append it, prune the stale front
   * of the window, and send out the window's size when it has reached the
   * repeat count.
   */
  function Register(cfg: DetectionConfig, events: seq<real>, now: real): Registration {
    var kept := Pruned(events + [now], now, cfg.Window());
    Registration(kept, if |kept| >= cfg.alertRepeatCount then Some(|kept|) else None)
  }

  /**
   * One frame: the eye branch, the mouth branch, the yawning flag, and the
   * edge-triggered raising of the alarm.
   */
  function Update(cfg: DetectionConfig, s: State, ear: real, mar: real, now: real): Outcome {
    var eyesClosed := ear < cfg.earThreshold;
    var earCounter := if eyesClosed then s.earCounter + 1 else 0;
    var alarmBefore := eyesClosed && s.alarmActive;
    var marCounter := if mar > cfg.marThreshold then s.marCounter + 1 else 0;
    var yawning := marCounter >= cfg.marConsecFrames;
    if earCounter >= cfg.earConsecFrames && !alarmBefore then
      var reg := Register(cfg, s.drowsyEvents, now);
      Outcome(State(earCounter, marCounter, true, Some(now), reg.events), true, yawning, true, reg.notified)
    else
      Outcome(State(earCounter, marCounter, alarmBefore, s.lastAlarmTime, s.drowsyEvents),
              alarmBefore, yawning, false, None)
  }

  /** Feeding a detector in state `s` the frames `samples` in order. */
  function Run(cfg: DetectionConfig, s: State, samples: seq<Sample>): Trace
    decreases |samples|
  {
    if samples == [] then Trace(s, 0, [])
    else
      var o := Update(cfg, s, samples[0].ear, samples[0].mar, samples[0].time);
      var rest := Run(cfg, o.state, samples[1..]);
      Trace(rest.final, (if o.registered then 1 else 0) + rest.registrations,
            NotificationLog(o.notified) + rest.notifications)
  }

  /** The alarm is only ever on once the eyes have been closed long enough. */
  predicate AlarmJustified(cfg: DetectionConfig, s: State) {
    s.alarmActive ==> s.earCounter >= cfg.earConsecFrames
  }

  /** The alarm is on exactly when the eyes have been closed long enough. */
  predicate Settled(cfg: DetectionConfig, s: State) {
    s.alarmActive <==> s.earCounter >= cfg.earConsecFrames
  }

  // ---------------------------------------------------------------------------
  // One frame

  /**
   * The eye branch: a closed-eye frame adds exactly one to the eye counter;
   * an open-eye frame sets it to zero and switches the alarm off, unless a
   * frame count of zero or less raises it again in the same call.
   */
  lemma UpdateEyeBranch(cfg: DetectionConfig, s: State, ear: real, mar: real, now: real)
    ensures var o := Update(cfg, s, ear, mar, now);
      (ear < cfg.earThreshold ==> o.state.earCounter == s.earCounter + 1) &&
      (ear >= cfg.earThreshold ==>
        o.state.earCounter == 0 && (o.state.alarmActive <==> cfg.earConsecFrames <= 0))
  {
  }

  /**
   * The mouth branch: a wide-open mouth adds exactly one to the mouth
   * counter, otherwise it is set to zero; and the mouth measurement has no
   * effect on the alarm, the alarm time, the event window or notifications.
   */
  lemma UpdateMouthBranch(cfg: DetectionConfig, s: State, ear: real, mar: real, mar': real, now: real)
    ensures var o := Update(cfg, s, ear, mar, now);
      o.state.marCounter == (if mar > cfg.marThreshold then s.marCounter + 1 else 0)
    ensures var o, o' := Update(cfg, s, ear, mar, now), Update(cfg, s, ear, mar', now);
      o.alarm == o'.alarm && o.registered == o'.registered && o.notified == o'.notified &&
      o.state.earCounter == o'.state.earCounter && o.state.alarmActive == o'.state.alarmActive &&
      o.state.lastAlarmTime == o'.state.lastAlarmTime && o.state.drowsyEvents == o'.state.drowsyEvents
  {
  }

  /**
   * Yawning is reported exactly when the updated mouth counter has reached
   * its frame count; it is recomputed from the mouth counter alone, so the
   * rest of the state does not influence it.
   */
  lemma UpdateYawning(cfg: DetectionConfig, s: State, s': State, ear: real, ear': real, mar: real, now: real, now': real)
    requires s.marCounter == s'.marCounter
    ensures var o := Update(cfg, s, ear, mar, now);
      o.yawning <==> o.state.marCounter >= cfg.marConsecFrames
    ensures Update(cfg, s, ear, mar, now).yawning == Update(cfg, s', ear', mar, now').yawning
  {
  }

  /** The returned alarm flag is the alarm field after the call. */
  lemma UpdateReturnsAlarm(cfg: DetectionConfig, s: State, ear: real, mar: real, now: real)
    ensures var o := Update(cfg, s, ear, mar, now);
      o.alarm == o.state.alarmActive
  {
  }

  /**
   * A drowsiness event is registered exactly when the updated eye counter has
   * reached its frame count while the alarm (after the eye branch) was off.
   * Then the alarm is on and the alarm time is this frame's; otherwise the
   * alarm time, the event window and the notifications are untouched.
   */
  lemma UpdateRegisters(cfg: DetectionConfig, s: State, ear: real, mar: real, now: real)
    ensures var o := Update(cfg, s, ear, mar, now);
      o.registered <==>
        o.state.earCounter >= cfg.earConsecFrames && !(ear < cfg.earThreshold && s.alarmActive)
    ensures var o := Update(cfg, s, ear, mar, now);
      o.registered ==>
        o.state.alarmActive && o.state.lastAlarmTime == Some(now) &&
        o.state.drowsyEvents == Register(cfg, s.drowsyEvents, now).events &&
        o.notified == Register(cfg, s.drowsyEvents, now).notified
    ensures var o := Update(cfg, s, ear, mar, now);
      !o.registered ==>
        o.state.lastAlarmTime == s.lastAlarmTime && o.state.drowsyEvents == s.drowsyEvents &&
        o.notified == None
  {
  }

  /**
   * With a frame count of at least one, a registration happens exactly on a
   * rising edge of the alarm: off before the frame, on after it.
   */
  lemma UpdateRegistersOnRisingEdge(cfg: DetectionConfig, s: State, ear: real, mar: real, now: real)
    requires cfg.earConsecFrames >= 1
    ensures var o := Update(cfg, s, ear, mar, now);
      o.registered <==> !s.alarmActive && o.state.alarmActive
  {
  }

  /**
   * Whatever the state before, after one frame of a detector whose alarm was
   * justified, the alarm is on exactly when the eyes have been closed long
   * enough.
   */
  lemma UpdateSettles(cfg: DetectionConfig, s: State, ear: real, mar: real, now: real)
    requires AlarmJustified(cfg, s)
    ensures Settled(cfg, Update(cfg, s, ear, mar, now).state)
  {
  }

  /** A fresh detector's alarm is justified; it is settled when the frame count is positive. */
  lemma InitJustified(cfg: DetectionConfig)
    ensures AlarmJustified(cfg, Init())
    ensures Settled(cfg, Init()) <==> cfg.earConsecFrames >= 1
  {
  }

  // ---------------------------------------------------------------------------
  // The event window and notifications

  /**
   * Registering appends `now` and prunes only the front: the new window is a
   * suffix of the old one with `now` at its end, it keeps `now` whenever the
   * window length is not negative, and it is never longer than before plus one.
   */
  lemma RegisterAppends(cfg: DetectionConfig, events: seq<real>, now: real)
    ensures var r := Register(cfg, events, now);
      |r.events| <= |events| + 1 && r.events == (events + [now])[|events| + 1 - |r.events|..]
    ensures var r := Register(cfg, events, now);
      cfg.alertWindowSeconds >= 0 ==> r.events != [] && r.events[|r.events| - 1] == now
  {
    PrunedSuffix(events + [now], now, cfg.Window());
    if cfg.alertWindowSeconds >= 0 {
      PrunedKeepsNow(events, now, cfg.Window());
    }
  }

  /**
   * A notification goes out exactly when the pruned window holds at least the
   * repeat count of events, and carries the window's size; nothing suppresses
   * a repeat notification.
   */
  lemma RegisterNotifies(cfg: DetectionConfig, events: seq<real>, now: real)
    ensures var r := Register(cfg, events, now);
      (r.notified.Some? <==> |r.events| >= cfg.alertRepeatCount) &&
      (r.notified.Some? ==> r.notified.value == |r.events|)
  {
  }

  /**
   * With chronological timestamps, registering keeps the window
   * chronological, leaves in it exactly the events of the last window
   * seconds, and notifies exactly when there are at least the repeat count of
   * such events, with their number.
   */
  lemma RegisterSorted(cfg: DetectionConfig, events: seq<real>, now: real)
    requires Sorted(events) && NotAfter(events, now)
    ensures var r := Register(cfg, events, now);
      Sorted(r.events) && NotAfter(r.events, now) && WithinWindow(r.events, now, cfg.Window()) &&
      r.events == Recent(events + [now], now, cfg.Window())
    ensures var n := |Recent(events + [now], now, cfg.Window())|;
      Register(cfg, events, now).notified == if n >= cfg.alertRepeatCount then Some(n) else None
  {
    PrunedAppendSorted(events, now, cfg.Window());
  }

  /**
   * One frame keeps a chronological window chronological when time does not
   * go backwards, and after a registration every event in it lies within the
   * alert window of the frame's time.
   */
  lemma UpdateKeepsWindowSorted(cfg: DetectionConfig, s: State, ear: real, mar: real, now: real)
    requires Sorted(s.drowsyEvents) && NotAfter(s.drowsyEvents, now)
    ensures var o := Update(cfg, s, ear, mar, now);
      Sorted(o.state.drowsyEvents) && NotAfter(o.state.drowsyEvents, now) &&
      (o.registered ==> WithinWindow(o.state.drowsyEvents, now, cfg.Window()))
  {
    RegisterSorted(cfg, s.drowsyEvents, now);
  }

  // ---------------------------------------------------------------------------
  // Runs of frames

  /**
   * A closed-eyes episode registers at most once: over frames that all have
   * the eyes closed, the eye counter grows by one per frame, the alarm is on
   * at the end exactly when the counter has reached its frame count, and a
   * drowsiness event is registered once if the alarm was off and the count is
   * reached during the episode, never otherwise.
   */
  lemma {:induction false} ClosedEpisode(cfg: DetectionConfig, s: State, samples: seq<Sample>)
    requires Settled(cfg, s)
    requires forall i :: 0 <= i < |samples| ==> samples[i].ear < cfg.earThreshold
    ensures var t := Run(cfg, s, samples);
      t.final.earCounter == s.earCounter + |samples| &&
      (t.final.alarmActive <==> s.earCounter + |samples| >= cfg.earConsecFrames) &&
      t.registrations ==
        (if !s.alarmActive && s.earCounter + |samples| >= cfg.earConsecFrames then 1 else 0)
    decreases |samples|
  {
    if samples != [] {
      var o := Update(cfg, s, samples[0].ear, samples[0].mar, samples[0].time);
      UpdateSettles(cfg, s, samples[0].ear, samples[0].mar, samples[0].time);
      assert forall i :: 0 <= i < |samples| - 1 ==> samples[1..][i] == samples[i + 1];
      ClosedEpisode(cfg, o.state, samples[1..]);
    }
  }

  /**
   * An open-eyes frame ends an episode: with a positive frame count the eye
   * counter is zero and the alarm off afterwards, whatever came before.
   */
  lemma OpenFrameEndsEpisode(cfg: DetectionConfig, s: State, ear: real, mar: real, now: real)
    requires cfg.earConsecFrames >= 1
    requires ear >= cfg.earThreshold
    ensures var o := Update(cfg, s, ear, mar, now);
      Settled(cfg, o.state) && o.state.earCounter == 0 && !o.state.alarmActive && !o.registered
  {
  }

  /**
   * A run split in two is the second half run from where the first half
   * ends, with the registrations and notifications of both halves.
   */
  lemma {:induction false} RunSplits(cfg: DetectionConfig, s: State, a: seq<Sample>, b: seq<Sample>)
    ensures Run(cfg, s, a + b).final == Run(cfg, Run(cfg, s, a).final, b).final
    ensures Run(cfg, s, a + b).registrations ==
      Run(cfg, s, a).registrations + Run(cfg, Run(cfg, s, a).final, b).registrations
    ensures Run(cfg, s, a + b).notifications ==
      Run(cfg, s, a).notifications + Run(cfg, Run(cfg, s, a).final, b).notifications
    decreases |a|
  {
    if a == [] {
      assert a + b == b;
    } else {
      var s1 := Update(cfg, s, a[0].ear, a[0].mar, a[0].time).state;
      assert (a + b)[0] == a[0];
      assert (a + b)[1..] == a[1..] + b;
      RunSplits(cfg, s1, a[1..], b);
    }
  }
}
