# PPE compliance and alerting core, modelled in Dafny

This project models `PPELogic.process_frame`, the per-frame compliance and
alert state machine of a live-video PPE monitor. One call takes the
detector/tracker output for a video frame and does four things:

1. It filters the boxes by per-class confidence threshold.
2. It splits them into persons (class 5, with a track id or the sentinel -1)
   and PPE items (every other class).
3. For every (person, item) pair it pushes a strict-containment indicator
   (1.0 or 0.0) into a rolling buffer. There is one buffer per (track id,
   item class), and each holds at most 30 entries.
4. It decides helmet, vest and boots for each person. Each is "yes" exactly
   when the positive class has a strictly higher rolling average than its
   negative counterpart.

From this it returns `detections_json`, one report per accepted person. It
returns an alert list, or None when no alert fired. The per-track
`alert_sent` flag makes alerts edge-triggered: exactly one alert per
compliance-loss episode.

The model is a set of pure functions over an explicit `State`, which holds
`score_buffers` and `alert_sent`. Each function returns the new state together
with the frame's outputs, so a series of frames is a fold (`Series.Run`).

Modules, leaves first:

| module | file | models |
|---|---|---|
| `Optional` | optional.dfy | `None`/`Some`, for absent tracker ids and the `None` alert list |
| `Geometry` | geometry.dfy | boxes, `int()` truncation of coordinates, strict containment |
| `RingBuffer` | ring_buffer.dfy | `deque(maxlen=30)`, `sum(buf) / len(buf)` |
| `TrackStore` | track_store.dfy | `score_buffers` and the per-track averages |
| `Detections` | detections.dfy | class ids, thresholds, the person pass and the item pass |
| `Compliance` | compliance.dfy | the yes/no comparisons and `is_safe` |
| `Alerting` | alerting.dfy | the `alert_sent` edge detector, on one track's safety sequence |
| `PpeLogic` | ppe_logic.dfy | `process_frame` itself |
| `FrameLaws` | frame_laws.dfy | properties of one frame |
| `Series` | series.dfy | properties of a series of frames |
| `Scenarios` | scenarios.dfy | concrete frames, computed exactly |

The `alert_sent` flag of a track that has never been seen defaults to True,
i.e. armed (src/local_models/ppe_code/ppe_logic.py:149). So a track that is
unsafe in its first frame is alerted in that frame (see
`FrameLaws.FirstSightingAlerts` and `Scenarios.HelmetOnlyFirstFrame`).

## Model

All source paths are in `src/local_models/ppe_code/ppe_logic.py`.

| member | source | states |
|---|---|---|
| Geometry.Trunc | src/local_models/ppe_code/ppe_logic.py:169 | Python `int()` on a coordinate truncates toward zero (`TowardZero`). A non-negative x gives the r with 0 <= r <= x < r+1. A negative x gives the r with r-1 < x <= r <= 0. |
| Geometry.ToIntBox | src/local_models/ppe_code/ppe_logic.py:169 | `map(int, box.xyxy[0])`: each of the four coordinates is truncated toward zero on its own. Item boxes go through the same conversion at line 187. |
| Geometry.Indicator | src/local_models/ppe_code/ppe_logic.py:203-204 | The pushed score is always 0.0 or 1.0. It is 1.0 exactly when all four item edges lie strictly inside the person box. |
| Geometry.SharedEdgeNotInside | src/local_models/ppe_code/ppe_logic.py:203 | An item that shares any edge coordinate with the person box is not contained and scores 0.0. |
| RingBuffer.Push | src/local_models/ppe_code/ppe_logic.py:144 | Appending to a `deque(maxlen=30)`: the result never exceeds 30 entries and ends with the new value. Below capacity it is the old buffer plus the value. At capacity the oldest entry is dropped. A buffer of indicators stays one of indicators. |
| RingBuffer.PushAllIsWindow | src/local_models/ppe_code/ppe_logic.py:206 | After any series of appends, the buffer holds exactly the newest 30 observations of the whole history, in arrival order. |
| RingBuffer.FromEmpty | src/local_models/ppe_code/ppe_logic.py:144 | A buffer that starts empty and receives n observations holds min(n, 30) of them, the newest ones. |
| RingBuffer.PushAllInvariant | src/local_models/ppe_code/ppe_logic.py:204-206 | Pushing only 0.0/1.0 keeps a buffer at most 30 long and binary. It is non-empty once something was pushed. |
| RingBuffer.SumIsOnes | src/local_models/ppe_code/ppe_logic.py:211 | Over indicators, `sum(buf)` equals the number of 1.0 entries. |
| RingBuffer.Average | src/local_models/ppe_code/ppe_logic.py:211 | On a binary buffer, `sum(buf) / len(buf)` is the count of positive observations over the length, and it lies in [0, 1]. |
| TrackStore.Record | src/local_models/ppe_code/ppe_logic.py:206 | `score_buffers[pid][cls].append(x)`: the (pid, cls) buffer becomes the deque push of x, and every other (track, class) buffer is unchanged. Missing map levels are created. The buffer invariant is kept. |
| TrackStore.Averages | src/local_models/ppe_code/ppe_logic.py:209-211 | The averages of a track have one entry per class that has a buffer. Each entry is the positive-observation fraction of a non-empty buffer, in [0, 1]. |
| TrackStore.PresentIffObserved | src/local_models/ppe_code/ppe_logic.py:210-211 | A class has an average exactly when at least one observation was recorded for it. |
| Detections.Threshold | src/local_models/ppe_code/ppe_logic.py:122-130 | Every class threshold lies between 0.2 and 0.5. A class id outside 0..6 gets the `.get` default 0.5. |
| Detections.Items | src/local_models/ppe_code/ppe_logic.py:180-188 | The PPE item list never contains class 5, and it is no longer than the box list. |
| Detections.Persons | src/local_models/ppe_code/ppe_logic.py:161-171 | The person pass yields at most one person per box. Its exact content is stated by PersonsExact, and its order by PersonsAppend. |
| Detections.PersonsExact | src/local_models/ppe_code/ppe_logic.py:161-171 | Every person comes from an accepted class-5 detection. Every accepted class-5 detection yields its person, with its truncated box and its track id or -1. |
| Detections.ItemsExact | src/local_models/ppe_code/ppe_logic.py:180-188 | Every item comes from an accepted non-person detection. Every such detection yields its item. |
| Detections.PersonsAppend | src/local_models/ppe_code/ppe_logic.py:161-171 | The person pass keeps detection order: splitting the box list splits the person list the same way. |
| Detections.ItemsAppend | src/local_models/ppe_code/ppe_logic.py:180-188 | The item pass keeps detection order the same way. |
| Detections.Single | src/local_models/ppe_code/ppe_logic.py:161-188 | A single box becomes a person, an item or nothing, by its class and by whether its confidence reaches the class threshold. |
| Detections.RejectedIgnored | src/local_models/ppe_code/ppe_logic.py:165-166 | A box whose confidence is below its class threshold has no effect, wherever it stands: persons and items are as if it were absent. |
| Detections.UntrackedIsSentinel | src/local_models/ppe_code/ppe_logic.py:170 | An accepted person without a tracker id is recorded under id -1. |
| Compliance.ScoreIsFraction | src/local_models/ppe_code/ppe_logic.py:209-219 | `avg_scores.get(name, 0)` for a class is its buffer's positive fraction, or 0 when the class has no buffer. |
| Compliance.Decide | src/local_models/ppe_code/ppe_logic.py:216-220 | Helmet, vest and boots are each decided by their own class pair: helmet/no helmet, vest/no vest, boots/no boots, "yes" iff the positive score strictly exceeds the negative one. With non-negative averages, "yes" needs an average for the positive class. |
| Compliance.IsSafe | src/local_models/ppe_code/ppe_logic.py:234-238 | `is_safe` holds exactly when the status is yes/yes/yes. |
| Compliance.BetterByCounts | src/local_models/ppe_code/ppe_logic.py:216-220 | An attribute's "yes", stated on counts (`Outweighs`), holds exactly in these cases. It needs at least one positive observation. Against an unobserved negative class, one positive observation suffices. Otherwise the positive fraction must strictly exceed the negative fraction. |
| Compliance.SafeByCounts | src/local_models/ppe_code/ppe_logic.py:209-238 | A track is safe exactly when, for helmet, vest and boots alike, its positive buffer outweighs its negative buffer in those count terms. |
| Compliance.NoEvidenceOrTieIsNo | src/local_models/ppe_code/ppe_logic.py:216-220 | With no evidence on either side, or with equal averages, the attribute is "no". |
| Compliance.PersonScoreIrrelevant | src/local_models/ppe_code/ppe_logic.py:213-220 | The `avg_scores["person"] = 1.0` entry never affects the decision. |
| Alerting.AlertStep | src/local_models/ppe_code/ppe_logic.py:238-256 | An alert fires exactly when the person is unsafe and the stored flag is armed. Afterwards the flag equals `is_safe`. |
| Alerting.FlagAfter | src/local_models/ppe_code/ppe_logic.py:252-256 | After any non-empty run of frames, the flag is the last frame's safety. |
| Alerting.AlertCountAppend | src/local_models/ppe_code/ppe_logic.py:239-256 | The alerts over two consecutive runs add up, the second run starting from the flag the first left. |
| Alerting.AlertCountIsEpisodes | src/local_models/ppe_code/ppe_logic.py:239-256 | The alerts a track receives equal its compliance-loss episodes: unsafe frames preceded by a safe frame or by the armed start. |
| Alerting.OneAlertPerEpisode | src/local_models/ppe_code/ppe_logic.py:241-252 | k >= 1 consecutive unsafe frames send one alert if the flag was armed and none otherwise, and leave the flag disarmed. |
| Alerting.NoAlertWhileSafe | src/local_models/ppe_code/ppe_logic.py:254-256 | Safe frames never send an alert. |
| Alerting.ReArm | src/local_models/ppe_code/ppe_logic.py:241-256 | A safe frame followed by an unsafe run adds exactly one alert, whatever came before. |
| PpeLogic.FlagOf | src/local_models/ppe_code/ppe_logic.py:149 | Reading `alert_sent` for a track: a track without an entry reads True (armed), one with an entry reads its stored flag. |
| PpeLogic.Indicators | src/local_models/ppe_code/ppe_logic.py:202-204 | One person's observations for a class are binary. There is at most one per item. |
| PpeLogic.RecordItems | src/local_models/ppe_code/ppe_logic.py:202-206 | The inner loop over items keeps the buffer invariant and changes no other track's buffers. |
| PpeLogic.RecordItemsBuffers | src/local_models/ppe_code/ppe_logic.py:202-206 | After the inner loop, each (pid, c) buffer is the old buffer with the containment observations of exactly the items of class c pushed, in item order. Other tracks are untouched. |
| PpeLogic.IndicatorsOfAbsentClass | src/local_models/ppe_code/ppe_logic.py:202-206 | A class that no accepted item has receives no observation. |
| PpeLogic.ProcessPerson | src/local_models/ppe_code/ppe_logic.py:197-256 | One person: the report carries the person's id and box, and its `avg_scores` are exactly the track's rolling averages after this person's pushes plus `person` = 1.0, all in [0, 1]. Its status is decided from those averages. An alert exists exactly when the person is unsafe and the flag was armed; it is `Raise` of the report: the report's id, box and status as a "violation". The person's flag becomes `is_safe`, and no other track's flag or buffers change. |
| PpeLogic.ProcessPersons | src/local_models/ppe_code/ppe_logic.py:197-256 | The loop over persons keeps the invariant, and yields one report per person and at most one alert per person. |
| PpeLogic.ProcessFrame | src/local_models/ppe_code/ppe_logic.py:152-258 | The state invariant survives the frame. There is one report per accepted person. The alert list is None or non-empty, and no longer than the report list. |
| FrameLaws.ReportsShape | src/local_models/ppe_code/ppe_logic.py:222-227 | Report i is about person i: same id and box, `person` = 1.0, every average in [0, 1]. |
| FrameLaws.ReportsAverages | src/local_models/ppe_code/ppe_logic.py:209-227 | Each report whose person id does not recur later in the frame carries that track's rolling averages at the end of the frame, plus `person` = 1.0. |
| FrameLaws.AlertsAreViolations | src/local_models/ppe_code/ppe_logic.py:241-249 | Every alert is the "violation" record of one of the frame's unsafe reports. |
| FrameLaws.AllSafeNoAlerts | src/local_models/ppe_code/ppe_logic.py:254-256 | A frame in which every report is safe produces no alert. |
| FrameLaws.OtherTracksUntouched | src/local_models/ppe_code/ppe_logic.py:197-206 | Buffers of track ids that are not persons of the frame are unchanged. |
| FrameLaws.OtherClassesUntouched | src/local_models/ppe_code/ppe_logic.py:202-206 | Buffers of classes that no accepted item of the frame has are unchanged. |
| FrameLaws.FlagKeys | src/local_models/ppe_code/ppe_logic.py:252-256 | After a frame, exactly the previously flagged ids and the frame's person ids have a flag. |
| FrameLaws.FlagsIsolated | src/local_models/ppe_code/ppe_logic.py:252-256 | The flags of ids that are not persons of the frame are unchanged. |
| FrameLaws.AbsentTrack | src/local_models/ppe_code/ppe_logic.py:197-256 | A track not in the frame gets no report and no alert, and keeps its flag and buffers. |
| FrameLaws.OnceTrackEvidence | src/local_models/ppe_code/ppe_logic.py:202-220 | A track seen once in a frame is reported with the status decided from its new averages. Each of its buffers received exactly the frame's observations of that class. |
| FrameLaws.OnceTrackAlert | src/local_models/ppe_code/ppe_logic.py:239-256 | A track seen once in a frame is alerted exactly when it is unsafe and its flag was armed. Its new flag is its safety. |
| FrameLaws.BuffersBounded | src/local_models/ppe_code/ppe_logic.py:144 | After any frame, every buffer holds at most 30 observations, each 0.0 or 1.0. Stored buffers are non-empty. |
| FrameLaws.FrameReports | src/local_models/ppe_code/ppe_logic.py:222-227 | `detections_json` has one entry per accepted person, in detection order, each shaped as in ReportsShape and carrying the averages stated by ReportsAverages. |
| FrameLaws.FrameAlerts | src/local_models/ppe_code/ppe_logic.py:241-258 | The alerts are None rather than an empty list. Every alert is the violation record of an unsafe report. A frame whose persons are all safe returns None. |
| FrameLaws.FrameIsolation | src/local_models/ppe_code/ppe_logic.py:197-256 | A frame changes buffers only of (person id, item class) pairs it contains, and flags only of its person ids. Every person id ends up with a flag. |
| FrameLaws.FrameTrackLaw | src/local_models/ppe_code/ppe_logic.py:197-256 | For a track seen once in a frame: its buffers received exactly the frame's observations, its report carries the resulting rolling averages and the status decided from them, and the alert law of FrameAlertLaw holds. |
| FrameLaws.FrameAlertLaw | src/local_models/ppe_code/ppe_logic.py:239-256 | The alert law of a track seen once in a frame, stated on the `process_frame` outputs. |
| FrameLaws.FrameAbsentLaw | src/local_models/ppe_code/ppe_logic.py:197-256 | A track that is not an accepted person of the frame gets no report and no alert, and keeps its flag and buffers, stated on the `process_frame` outputs. |
| FrameLaws.FirstSightingAlerts | src/local_models/ppe_code/ppe_logic.py:239-249 | A never-seen track that is unsafe in its first frame is alerted in that frame, because the flag defaults to armed. |
| Series.SafetyIn | src/local_models/ppe_code/ppe_logic.py:222-238 | A frame contributes one safety entry for a track exactly when it reports the track, and that entry is the report's `is_safe`. |
| Series.RunFollowsAlertStep | src/local_models/ppe_code/ppe_logic.py:239-256 | Over any series of frames in which the track appears at most once per frame, its alert total is the edge detector's count on its safety in the frames that report it. A frame without the track leaves its flag as it was. |
| Series.EpisodeLaw | src/local_models/ppe_code/ppe_logic.py:239-256 | The same alert total equals the number of compliance-loss episodes, counted over the frames that report the track; absence neither ends nor starts an episode. |
| Series.SeenHasSafety | src/local_models/ppe_code/ppe_logic.py:197-238 | A track that is an accepted person of some frame has at least one safety entry over the run. |
| Series.UnsafeRunAlertsOnce | src/local_models/ppe_code/ppe_logic.py:241-252 | A run in which the track appears and is unsafe every time it is reported gives exactly one alert for an armed track and none for an already-alerted one, whatever frames without it lie between. |
| Scenarios.SplitHelmetFrame | src/local_models/ppe_code/ppe_logic.py:161-188 | A frame with a tracked worker and a helmet: one person (1, (0,0,100,200)) and one helmet item (10,10,50,50), with truncated coordinates. |
| Scenarios.HelmetOnlyFirstFrame | src/local_models/ppe_code/ppe_logic.py:152-258 | That frame on a fresh instance: the report has helmet 1.0, person 1.0, status helmet yes / vest no / boots no, and one violation alert. |
| Scenarios.FaintHatIgnored | src/local_models/ppe_code/ppe_logic.py:184-185 | Adding a helmet at confidence 0.45, below the 0.5 threshold, leaves the frame's result unchanged. |
| Scenarios.NoVestNotSafe | src/local_models/ppe_code/ppe_logic.py:216-238 | A track with no vest observation has vest "no" and is unsafe. |
| Scenarios.NoVestFrame | src/local_models/ppe_code/ppe_logic.py:197-238 | A frame without an accepted vest keeps such a track without vest evidence, and reports it unsafe if it reports it. |
| Scenarios.NoVestUnsafeThroughout | src/local_models/ppe_code/ppe_logic.py:197-238 | Over frames without an accepted vest, such a track is unsafe in every frame that reports it. |
| Scenarios.NoVestRunAlertsOnce | src/local_models/ppe_code/ppe_logic.py:239-256 | On a fresh instance, a track seen in at least one frame of a vest-free series is alerted exactly once over the whole series, whether or not it is absent from some frames. |
| Scenarios.LeaveAndReturnAlertsOnce | src/local_models/ppe_code/ppe_logic.py:149-256 | A worker without PPE who is seen, leaves the view for a frame, and returns is alerted once in total, not again on return. |

## Left out

- Drawing: the `cv2` rectangles and labels, the copy of `result.orig_img`, and the returned image. They do not affect the JSON outputs or the state.
- `frame_num`: the parameter is unused by the method.
- The per-person `scores` dict: it is written but never read.
- The class colour table: it is used only for drawing.
- Floating point. Confidences, coordinates and averages are exact reals.
  - Averages are count/len with len <= 30. Double arithmetic orders such fractions the same way, so the yes/no comparisons are unaffected.
  - A confidence that lies exactly on a decimal threshold (0.3, 0.2, …) may compare differently against the double constant.
- Class names. Averages are keyed by class id, where the source keys them by `result.names[cid]`. The names table ships with the detector weights and is not part of this model; the ids 0..6 are named in the source's comments.
  - An id missing from the table would raise `KeyError` in the source. The model keeps such an id as its own key.
- The lazily created empty inner dict of `score_buffers[pid]`, made when averages are read for a person with no item observations. It holds no buffer, so no average comes from it. The model creates map entries only on a push.
- Sessions, session teardown, the worker pools, persistence, the transport, the detector itself, and the other files of the repository (inference and gateway code). The source keeps one state per `PPELogic` instance; the model has the same single state.
- Detections.Threshold: its contract states the range [0.2, 0.5] and the 0.5 default only. The per-class values are the constant map `Detections.Thresholds`, written as in the source.
- PpeLogic.ProcessFrame: its own contract states counts and the invariant only. The content of the reports and alerts is stated by the `FrameLaws` lemmas about it (FrameReports, FrameAlerts, FrameTrackLaw).
- FrameLaws.ReportsAverages: for a person id that recurs later in the same frame, the earlier report's averages are those after its own pushes only; this intermediate value is stated by PpeLogic.ProcessPerson for that step, not at frame level.
- Per-track laws for a track id that appears more than once in one frame, for example several untracked persons sharing -1. The state changes for such a frame are still modelled exactly, but FrameTrackLaw assumes the track appears once, and the series lemmas assume it appears at most once per frame (frames without it are covered).
