# Tell Engine of the Lie-Detector, in Dafny

This project models the Tell Engine of `deception_detection.py`: the per-frame
core that turns facial and hand features into short-lived "tells" (blink-rate
change, heart-rate change, hand on face, gaze change, lip compression).

- **Sliding windows** (`windows.dfy`, module `Windows`): the `MAX_FRAMES` = 120
  sample windows `blinks`, `hand_on_face`, `hr_values` and `gaze_values`. They
  are updated by the push `xs[1:] + [v]`. `Count` is `sum` over a boolean list
  and `list.count` over a value list.
- **Tell registry** (`tells.dfy`, module `Tells`): entries `{text, ttl}`,
  `new_tell`, and `decrement_tells`. The last one is a loop over a copy of the
  keys that decrements each ttl and deletes the entries that reach 0.
- **Heart rate** (`heart_rate.dfy`, module `HeartRate`): the part of
  `calculate_bpm` that runs after peak finding. It turns peak gaps into
  per-interval values, keeps the values in `[min_bpm, max_bpm]` and takes their
  mean. `CalculateBpmAsWritten` converts gaps as the source does, and the engine
  uses it. `CalculateBpm` is the corrected conversion (see Findings).
- **Detectors** (`detectors.dfy`, module `Detectors`): `get_blink_tell` and the
  counting rule of `detect_gaze_change`.
- **Engine** (`engine.dfy`, module `Engine`): class `TellEngine`. Its fields are
  the module globals and it runs `process_frame` and its helpers
  (`get_bpm_change_value`, `detect_gaze_change`). Each feature extractor is
  replaced by the value it would return, gathered in `FaceFeatures`. The peak
  indices of the smoothed heart signal and the frame rate are parameters.

Facts about the code as written that the model keeps:
- The blink guard counts the oldest 12 samples (`blinks[:RECENT_FRAMES]`), not
  the newest. "Increased blinking" can never be reported, because the newest-12
  count would have to exceed twice the whole-window count
  (`Detectors.BlinkTellOutcomes`). The model follows the code here.
- `avg_bpms` is never written after it is filled with zeros, so every estimate
  differs by more than 8 from the "previous" one. Whenever an estimate exists,
  the frame step sets "Heart rate increasing". `TellEngine.Valid()` keeps
  `avgBpms` all zeros.
- `if bpm:` is Python truthiness. An estimate lies in [50, 150], so it is never
  0, and truthiness is the same as the estimate being present.
- Gaze values are rounded to one decimal in the source. The model represents
  them as integer tenths, which keeps the exact-equality count of the source.
- The blink ratios are compared as exact rationals. With counts of at most 120,
  the floating-point comparisons of the source give the same outcome.

## Model

| member | source | states |
|---|---|---|
| `Windows.Push` | deception_detection.py:244 | The push `xs[1:] + [v]` keeps a non-empty window's length. The new sample is last, and every other sample moves one slot toward the front. |
| `Windows.WindowHoldsLastPushes` | deception_detection.py:244 | The same push serves `blinks` here and `gaze_values`, `hand_on_face` and `hr_values` at lines 172, 249 and 267. After at least as many pushes as the window holds, the window equals the last pushed values, in order, and keeps its length. |
| `Windows.PushAllShifts` | deception_detection.py:172 | After any run of pushes, a window is the tail of its initial contents followed by everything pushed. |
| `Windows.Count` | deception_detection.py:173 | `list.count` / `sum`: the number of occurrences never exceeds the length. |
| `Windows.CountSlice` | deception_detection.py:129-132 | A slice of a window never counts more occurrences than the whole window. |
| `Windows.CountZero` | deception_detection.py:131 | A count is zero exactly when no element equals the value. |
| `Tells.NewTell` | deception_detection.py:40-41 | A new entry keeps its text. Alone in a registry, it shows ttl n − j after j < n decays and is gone after n. |
| `Tells.Decremented` | deception_detection.py:32-38 | One decay pass adds no key and keeps each survivor's text. Each survivor's ttl is old ttl − 1 ≥ 1. An entry is removed exactly when its old ttl ≤ 1. |
| `Tells.DecrementTells` | deception_detection.py:32-38 | The loop over a copy of the keys that decrements and deletes in place yields exactly `Decremented` of its input. |
| `Tells.DecayNCountsDown` | deception_detection.py:32-37 | An entry with ttl greater than j is still present after j decays, with its text and ttl − j. |
| `Tells.TellLifetime` | deception_detection.py:32-41 | After `tells[k] = new_tell(t, n)` with n ≥ 1 and no refresh, k is present with ttl 1 after n − 1 decays and absent after n. |
| `Tells.DecayNNeverAdds` | deception_detection.py:32-38 | Repeated decay never brings a key into the registry. |
| `HeartRate.InRange` | deception_detection.py:53 | The mask selection keeps exactly the rates inside [lo, hi], with no more elements than its input. |
| `HeartRate.InRangeKeepsMultiplicity` | deception_detection.py:53 | Every value inside [lo, hi] is kept as many times as it occurs. Every other value is dropped. |
| `HeartRate.Mean` | deception_detection.py:56 | `np.mean` of a non-empty sequence lies between two of its elements. |
| `HeartRate.MeanBounds` | deception_detection.py:56 | The mean of values in [lo, hi] lies in [lo, hi]. |
| `HeartRate.FilterMean` | deception_detection.py:53-56 | The result is None exactly when no rate lies in [lo, hi]. Otherwise it is a mean that lies in [lo, hi]. |
| `HeartRate.BeatRateKeepsGaps` | deception_detection.py:52-53 | With the corrected conversion, a gap is kept exactly when it lies in [60·fps/max, 60·fps/min]. At 30 fps that is 12 to 36 frames. |
| `HeartRate.AsWrittenKeepsGaps` | deception_detection.py:52-53 | As written, a gap is kept exactly when it lies in [min·fps/60, max·fps/60]. At 30 fps that is 25 to 75 frames. |
| `HeartRate.AsWrittenIsReciprocalRate` | deception_detection.py:52 | Each value as written times the beat rate of the same gap is 3600. The source reports 3600 divided by the rate. |
| `HeartRate.CalculateBpm` | deception_detection.py:50-56 | None exactly when there are fewer than 2 peaks or no interval rate lies in [min_bpm, max_bpm]. Otherwise the estimate lies in [min_bpm, max_bpm]. |
| `HeartRate.PeriodicPeaksGiveTheirRate` | deception_detection.py:50-56 | Evenly spaced peaks whose rate is plausible give exactly that rate. |
| `HeartRate.CalculateBpmAsWritten` | deception_detection.py:47-56 | As the source computes it: None exactly when there are fewer than 2 peaks or no `gap / fps * 60` lies in [min_bpm, max_bpm]. Otherwise the estimate lies in [min_bpm, max_bpm]. |
| `HeartRate.AsWrittenMissesRestingPulse` | deception_detection.py:52 | At 30 fps, peaks 24 frames apart (75 bpm) give None as written and 75 with the beat-rate conversion. |
| `Detectors.BlinkTell` | deception_detection.py:128-138 | Reports one of the two blink messages, and only when the oldest 12 samples hold at least 3 blinks. |
| `Detectors.BlinkTellOutcomes` | deception_detection.py:128-138 | None unless the oldest 12 samples hold at least 3 blinks. Past that guard, the result is "Decreased blinking" exactly when the newest 12 samples hold none. "Increased blinking" is never returned. |
| `Detectors.GazeMatches` | deception_detection.py:173-174 | The share lies in [0, 1] for a window of at most 120 samples. It is below 0.01 exactly when the value occurs at most once. |
| `Detectors.GazeChangeIffNovel` | deception_detection.py:170-176 | After the push, the new gaze value occurs at least once. Its share is below 0.01 exactly when it occurs once, which means it appears nowhere else in the window. |
| `Detectors.SteadyGazeNeverChanges` | deception_detection.py:172-176 | Pushing a value into a window full of it gives share 1, so no change is reported. |
| `Detectors.NovelGazeChanges` | deception_detection.py:172-176 | Pushing a value unseen in the window gives share 1/120, which is below 0.01. |
| `Engine.IsBlinking` | deception_detection.py:125-126 | Both eyes below 0.15 count as a blink, and a blink needs at least one eye below 0.15. |
| `Engine.FaceTells` | deception_detection.py:236-256 | The BPM display tell is always refreshed. Each other tell is refreshed with the frame's ttl exactly when it fires, and otherwise stays as decayed. "bpm_change" fires, with "Heart rate increasing", exactly when an estimate exists. |
| `Engine.TellEngine.constructor` | deception_detection.py:20-30 | Initial globals: windows pre-filled with False, False, 400 and 0, `avg_bpms` zeros, area 0, empty registry. |
| `Engine.TellEngine.GetBpmChangeValue` | deception_detection.py:259-269 | Pushes the cheek sample into `hr_values` and returns the as-written estimate, which lies in [50, 150] when present. |
| `Engine.TellEngine.DetectGazeChange` | deception_detection.py:170-176 | Pushes the gaze value, which becomes the newest sample. The result is nonzero exactly when the value occurs once in the window, and is then 1/120. |
| `Engine.TellEngine.UpdateHeartRate` | deception_detection.py:236-243 | Pushes the heart sample and always sets the BPM display from the as-written estimate. Sets "Heart rate increasing" exactly when that estimate exists. |
| `Engine.TellEngine.UpdateBlinks` | deception_detection.py:244-247 | Pushes the blink flag. Sets "Decreased blinking" exactly when the oldest 12 samples hold at least 3 blinks and the newest 12 hold none. |
| `Engine.TellEngine.UpdateHandOnFace` | deception_detection.py:248-251 | Pushes the hand flag and sets "Hand covering face" exactly when it is set. |
| `Engine.TellEngine.UpdateGaze` | deception_detection.py:252-254 | Pushes the gaze value and sets "Change in gaze" exactly when that value occurs once in the window. |
| `Engine.TellEngine.ProcessFace` | deception_detection.py:227-256 | With a face, each window is pushed exactly once, the face area is recorded, and the registry becomes `FaceTells` of the decayed registry. "lips" is upserted exactly when the lip ratio is strictly below 0.35 (line 255). |
| `Engine.TellEngine.ProcessFrame` | deception_detection.py:223-257 | Decays first. With no face, the result is the decayed registry and no window changes, whatever the frame rate. With a face, every window is pushed once and each tell is upserted exactly when its condition fires. "lips" is upserted exactly when the lip ratio is strictly below 0.35 (line 255). The returned snapshot is the registry. |

## Left out

- Drawing, text output and the UI (`draw_on_frame`, `add_text`, `write`, `main.py`, `video_processing.py`): presentation and I/O only.
- `find_face_and_hands`, `check_hand_on_face`, `is_blinking`'s distances, `get_gaze`, `get_avg_gaze`, `get_lip_ratio`, `get_aspect_ratio`, `get_face_relative_area`: external landmark detection and floating-point geometry. Their results are fields of `FaceFeatures`. The only thresholds kept are the eye-ratio mean < 0.15 and the lip ratio < 0.35.
- `get_area` and the `np.average` cheek sampling: image slicing. The summed cheek sample is an abstract real.
- `smooth` and `find_peaks`: numpy/scipy signal processing. The peaks are a parameter. On a frame with a face the frame rate must be at least 2.5, because peak detection is called with a separation of `fps / 2.5` samples and raises an error below 1. Frames without a face place no demand on it.
- `get_mood`, `get_emotions`, the emotion classifier, the mood thread and the `calculating_mood` flag: a foreign classifier plus concurrency. They never influence a tell.
- The `'ttl' in tell` test of `decrement_tells`: every entry the engine creates has a ttl, so the test always passes.
- The `f"BPM: {bpm:.2f}"` formatting: the display text is kept as the value it shows (`BpmReading`).
- Aliasing: the source returns its global dictionary itself and the caller keeps it. The model returns the registry as a value.
- Floating-point rounding of the rate arithmetic and of the mean: the model uses exact reals.

## Findings

| source | as written | input that shows it | evidently intended | confidence | as-written member | corrected member |
|---|---|---|---|---|---|---|
| deception_detection.py:52 | Each peak gap becomes `gap / fps * 60`, which is the interval in seconds times 60, and is then filtered to [50, 150] as if it were beats per minute. | fps = 30, peaks [0, 24] (a 75 bpm pulse): 24 / 30 · 60 = 48, filtered out, result None | a beat rate of 60 · fps / gap, which is 75 for this input | high (not executed) | `HeartRate.AsWrittenMissesRestingPulse` | `HeartRate.CalculateBpm` |

The engine follows the code and uses `CalculateBpmAsWritten`. The corrected
`CalculateBpm` carries the intended properties: the same None-iff and range
results, and `PeriodicPeaksGiveTheirRate`.
