# Drowsiness detector: the alerting state machine

This project models the alerting core of a driver-drowsiness monitor. Once per
detected face and frame, the monitor feeds a `DrowsinessDetector` three numbers:
the eye aspect ratio (EAR), the mouth aspect ratio (MAR) and the current time.
The detector keeps:

- a counter of consecutive closed-eye frames (`ear < earThreshold`);
- a counter of consecutive open-mouth frames (`mar > marThreshold`);
- an alarm flag that is raised on the frame where the eye counter reaches
  `earConsecFrames` and dropped on the first open-eye frame;
- the time of the last alarm;
- a sliding window of drowsiness timestamps, pruned from the front.

Every time the alarm is raised, the detector registers a drowsiness event. It
appends the time to the window and drops stale events from the front. When the
window then holds at least `alertRepeatCount` events, it sends an alert
carrying that count.

Layout:

- `wrappers.dfy`: `Option`.
- `config.dfy`: `DetectionConfig`, the six numeric fields of the session's
  configuration, with the record's defaults.
- `event_window.dfy`: the sliding window. `Pruned` is what front pruning
  leaves; `PrunedSuffix` says what that is. `Recent` is the independent reference: the events inside the window.
  The lemmas relate the two.
- `detector_model.dfy`: the detector as values. `State` holds the fields,
  `Update` is one frame, `Register` is one drowsiness registration and `Run`
  is a sequence of frames. The lemmas state what the detector promises.
- `detector.dfy`: the class `DrowsinessDetector`. Its fields are updated in
  place and the window is a `seq` field. `PruneEvents` is a `while` loop that
  drops the front. The alert is an abstract event appended to a ghost log
  `notifications`. Each method is proved to change the fields exactly as the
  functions of `detector_model.dfy` say.
- `episodes.dfy`: repeated closed-eyes episodes. Each one registers once.
  When they all fall within one alert window, an alert goes out once their
  number reaches the repeat count.
- `scenarios.dfy`: worked runs with a small configuration.

Timestamps, ratios and thresholds are `real`. The frame counts, the window
length and the repeat count are `int`, as in the source, which does not check
that they are positive.

Where the design description and the code differ, the model follows the code:

- The design says every event left after pruning lies within the window. The
  code only prunes from the front, so this holds only when timestamps never
  decrease. `PrunedSortedIsRecent`, `PrunedAppendSorted` and `RegisterSorted`
  carry that premise. `PrunedSuffix`, for any window, promises the front only.
- The design says all counts are positive. The code does not check this. With
  `earConsecFrames <= 0`, an open-eye frame drops the alarm and raises it
  again in the same call, registering an event each time. `UpdateEyeBranch`
  states this case.
- The design asks for a guard against degenerate landmark geometry. The code
  has none, and the ratios are inputs here.

## Model

| member | source | states |
|---|---|---|
| EventWindow.PrunedSuffix | app.py:76-78 | pruning leaves a suffix of the window; every dropped event is stale (`now - e > window`); the new front, if any, is not stale |
| EventWindow.RecentMembers | app.py:77 | the reference window `Recent` keeps an event iff it is not stale at `now`, and is never longer than its input |
| EventWindow.PrunedIsUnique | app.py:76-78 | those three properties determine the pruned window: any suffix with them equals it |
| EventWindow.PrunedIsMaximal | app.py:76-78 | no suffix lying wholly inside the window is longer than the pruned window |
| EventWindow.PrunedIdempotent | app.py:76-78 | pruning again at the same time removes nothing more |
| EventWindow.PrunedSortedIsRecent | app.py:76-78 | for a chronological window, pruning leaves exactly the recent events, all within the window |
| EventWindow.PrunedKeepsNow | app.py:80-82 | with a non-negative window, appending `now` and pruning leaves a non-empty window ending in `now` |
| EventWindow.PrunedAppendSorted | app.py:80-82 | appending a time no earlier than the window's events and pruning keeps the window chronological, within the window, and equal to the recent events |
| DetectorModel.UpdateEyeBranch | app.py:88-106 | a closed-eye frame adds exactly 1 to the eye counter; an open-eye frame sets it to 0 and leaves the alarm off unless the frame count is 0 or less |
| DetectorModel.OpenFrameEndsEpisode | app.py:88-92 | with a positive frame count, an open-eye frame leaves the counter at 0, the alarm off and registers nothing, whatever the previous state |
| DetectorModel.UpdateMouthBranch | app.py:94-97 | an open-mouth frame adds exactly 1 to the mouth counter, otherwise it becomes 0; MAR has no effect on the alarm, the alarm time, the window or alerts |
| DetectorModel.UpdateYawning | app.py:87-100 | yawning iff the updated mouth counter reached its frame count; it depends on nothing else of the state |
| DetectorModel.UpdateReturnsAlarm | app.py:102-108 | the returned alarm equals the alarm field after the call |
| DetectorModel.UpdateRegisters | app.py:102-106 | registration iff the updated eye counter reached its frame count while the alarm was off after the eye branch; then alarm on, alarm time `now`, window and alert as `Register` says; otherwise alarm time, window and alerts unchanged |
| DetectorModel.UpdateRegistersOnRisingEdge | app.py:88-106 | with a positive frame count, registration iff the alarm goes from off to on |
| DetectorModel.UpdateSettles | app.py:88-106 | if the alarm implies a full eye counter before a frame, afterwards the alarm is on iff the eye counter has reached its frame count |
| DetectorModel.InitJustified | app.py:68-74 | a fresh detector satisfies that premise; it already satisfies the iff exactly when the frame count is positive |
| DetectorModel.RegisterAppends | app.py:80-82 | registration leaves a suffix of the old window plus `now`, and keeps `now` when the window length is non-negative |
| DetectorModel.RegisterNotifies | app.py:83-84 | an alert is sent iff the pruned window holds at least the repeat count, carrying the window's size; nothing suppresses repeats |
| DetectorModel.RegisterSorted | app.py:80-84 | with chronological times, the window stays chronological and within the window, equals the recent events, and an alert goes out iff their number reaches the repeat count, carrying that number |
| DetectorModel.UpdateKeepsWindowSorted | app.py:80-106 | with chronological times, one frame keeps the window chronological; after a registration every event is within the window |
| DetectorModel.ClosedEpisode | app.py:86-108 | over closed-eye frames the counter grows by one per frame; the alarm is on at the end iff the count is reached; one registration if the alarm was off and the count is reached, none otherwise |
| DetectorModel.RunSplits | app.py:86-108 | a run of frames split in two is the second part run from the state the first leaves, with the registrations and alerts of both |
| Episodes.EpisodeRegistersOnce | app.py:86-108 | with a positive frame count, closed eyes for at least the frame count then one open-eye frame, from rest, registers exactly once and ends at rest |
| Episodes.EpisodesRegisterEach | app.py:86-108 | a sequence of such episodes from rest registers exactly once per episode |
| Episodes.UpdateWithinWindow | app.py:76-84 | when the window's events and `now` lie within one alert window, registration prunes nothing: it appends `now` and alerts iff the grown window reaches the repeat count, with its size |
| Episodes.RunWithinWindow | app.py:76-108 | over frames within one alert window, every registration grows the window by one; no registration, no alert; once the count is reached the last alert carries the total |
| Episodes.RepeatedEpisodesAlert | app.py:76-108 | at least the repeat count of episodes within one alert window, from a fresh detector, give one registration per episode and at least one alert, the last carrying the number of episodes |
| Detector.DrowsinessDetector.constructor | app.py:68-74 | counters 0, alarm off, no alarm time, empty window, no alerts |
| Detector.DrowsinessDetector.SendGpsAlert | app.py:58-64 | the alert's count is appended to the alert log |
| Detector.DrowsinessDetector.PruneEvents | app.py:76-78 | the loop leaves `Pruned(old window)`: a suffix whose front is within the window |
| Detector.DrowsinessDetector.RegisterDrowsiness | app.py:80-84 | the window and the alert log become what `Register` gives; `now` is kept; a chronological window stays chronological and within the window |
| Detector.DrowsinessDetector.UpdateAlarm | app.py:86-108 | the fields, the returned flags and the alert log become what `Update` gives; the returned alarm is the field; afterwards alarm iff eye counter reached its frame count, yawning iff mouth counter reached its |
| Scenarios.FirstEpisode | app.py:86-108 | three closed-eye frames at times 0, 1, 2 raise the alarm once at time 2, with window `[2]` |
| Scenarios.EyesReopen | app.py:88-92 | the next open-eye frame drops the alarm and zeroes the eye counter |
| Scenarios.SecondEpisodeInWindow | app.py:80-84 | a second registration at time 5 gives window `[2, 5]` and an alert with count 2 |
| Scenarios.SecondEpisodeOutOfWindow | app.py:76-84 | a second registration at time 15 prunes time 2 first: window `[15]`, no alert |
| Scenarios.Yawn | app.py:94-100 | two open-mouth frames with open eyes: yawning on the second, no alarm |

## Left out

- `eye_aspect_ratio` and `mouth_aspect_ratio` are floating-point Euclidean norms with unguarded division. The ratios are inputs to `UpdateAlarm` instead.
- `get_gps_location` performs an HTTP lookup. The alert is modelled only by the count it carries.
- `send_gps_alert` also formats and prints a message. Only the count is modelled, as an entry in the `notifications` log.
- `preprocess_frame`, `parse_args` and `main` are left out. They cover image processing, argument parsing, camera capture, landmark detection, drawing, the display loop, the clock and exit codes.
- The `low_light_clahe` and `gps_endpoint` configuration fields are used only by the I/O paths above.
- Floating point is not modelled: times, ratios and the subtraction `now - e` are exact reals.
- One detector shared by several faces in a frame needs nothing beyond the model, since each face is just one more call of `UpdateAlarm`.
