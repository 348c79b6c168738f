# Mass-emotion video analysis, modelled in Dafny

The system samples one frame per second from a lecture or presentation
video and sends each frame to a face detector. It then turns the
detector's per-face answers into classroom metrics. This project models
everything that happens after the detector has answered. Each frame's
answer is an input: a sequence of `RawFace` records whose attributes may
each be missing.

The model covers three analysers.

- **The full analyser** (`js/massEmotions.js`):
  - normalises every face, attaches its box area and splits the frame into
    a speaker (the largest box) and an audience;
  - gives every face a stable identity with a centre-distance tracker;
  - classifies each face as distracted or not, with a reason;
  - writes one CSV row per face and keeps per-person emotion tables and
    distraction records;
  - counts speaking faces and the audience's positive and negative
    emotions;
  - finally computes distraction rates, a speaker-to-audience speaking
    ratio and an emotion balance.
- **The server analyser** (`public/js/massEmotions.js`):
  - uses a smaller face record with the same tracker and role split;
  - counts speaking faces, the emotion balance, an eye-direction histogram
    and eyes-open and mouth-open totals;
  - counts the speaker's speaking frame first, then counts and identifies
    the audience, and identifies the speaker last.
- **The single-face analyser** (`reflection.js`):
  - keeps only the first face of each frame and normalises it;
  - tags the frame's result with its second.

The files:

- `wrappers.dfy`: `Option` and `Result`.
- `seqs.dfy`: counting, the "earliest maximum" predicate and a prefix step for loops.
- `detector.dfy`: the detector's records and their accessors with their defaults.
- `attributes.dfy`: the top emotion and the gaze direction, shared by all analysers.
- `roles.dfy`: the stable descending sort and the speaker/audience split.
- `tracking.dfy`: the tracker, as pure specification functions and as a class whose `Assign` method is proved against them.
- `mass_emotions.dfy`: the full analyser's face record and distraction classifier.
- `mass_emotions_analysis.dfy`: the full analyser's frame loop and final outputs.
- `public_mass_emotions.dfy`: the server analyser.
- `reflection.dfy`: the single-face analyser.

Two kinds of member model the source's loops:

- **Methods** such as `Tracker.Assign`, `ProcessFrame` and `AnalyzeVideo`
  change the tracker in place. Each is proved equal to a pure fold:
  `TrackAll` for the tracker, `Recorded` and `Expected` for the
  analysers' state.
- **Lemmas** about those folds state what the source promises: counts,
  bounds, orderings, and which identity is reused.

Behaviours of the code that the model keeps as they are:

- The server analyser applies no mouth-open confidence floor. A face
  counts as speaking on `mouthOpen` alone
  (public/js/massEmotions.js:119, :122).
- The server analyser takes the speaker's speaking count before the
  audience loop (public/js/massEmotions.js:119). The audience is then
  counted and identified (:120-132). The speaker's other counters and its
  identification come last (:134-139).
- The single-face analyser gives a face without emotions no default.
  Reading the top emotion of a missing or empty list fails
  (reflection.js:30-31), so the whole timeline fails
  (`Failure(NoTopEmotion)`).
- An exact distance tie goes to the earliest-created identity, because
  the scan replaces the best only when a distance is strictly smaller
  (js/massEmotions.js:85). The earliest-created identity is also the one
  with the lowest person number.

## Model

| member | source | states |
|---|---|---|
| Detector.FlagValue | js/massEmotions.js:49-58 | a missing attribute has no value; a present one has the detector's value (`?.Value ?? null`) |
| Detector.FlagConfidence | js/massEmotions.js:50-59 | the confidence is 0 when the attribute or its confidence is missing, otherwise the detector's |
| Detector.PoseYaw | js/massEmotions.js:61 | the yaw is 0 when the pose or its yaw is missing, otherwise the detector's |
| Detector.BoxArea | js/massEmotions.js:189 | a face without a box has area 0 |
| Attributes.ClassifyYaw | js/massEmotions.js:35-38 | Left exactly when yaw < -15, Right exactly when yaw > 15, Center otherwise (±15 included, missing yaw included); never Unknown |
| Attributes.EyeDirection | js/massEmotions.js:33-39 | Unknown exactly when the gaze is missing or its confidence is not above 50; otherwise the yaw classification |
| Attributes.GazeConfidence | js/massEmotions.js:47 | 0 when the gaze or its confidence is missing, otherwise the detector's confidence |
| Attributes.ReduceTopIsFirstMax | js/massEmotions.js:28-31 | the reduction either keeps its start value, when no entry beats it, or returns the earliest entry of maximal confidence, which beats it strictly |
| Attributes.TopEmotion | js/massEmotions.js:27-31 | no top entry exactly for an empty list; otherwise the earliest entry of maximal confidence |
| MassEmotions.NormalisedEmotion | js/massEmotions.js:27-44 | "Unknown" with confidence 0 for a missing or empty list; otherwise the earliest maximal entry's label ("Unknown" if empty) and confidence; the label is never empty |
| MassEmotions.FormatFaceData | js/massEmotions.js:24-63 | emotion as above; gaze Unknown unless trusted, else classified by yaw; every attribute's value and confidence as the detector gave them with `null`/0 defaults; yaw 0 without pose; box kept; area 0 without box |
| MassEmotions.DetectDistraction | js/massEmotions.js:135-148 | distracted exactly when the face is turned (yaw beyond ±25), looks left or right, or is occluded; no reason when not distracted, the single trigger's name when one fires, `multiple` when two or three fire |
| Roles.SortFacts | js/massEmotions.js:155 | the sort gives non-increasing keys, is a permutation, and keeps equal-key elements in input order (stable) |
| Roles.SortHeadIsFirstMax | js/massEmotions.js:155-156 | the head of the sorted faces is the earliest face of largest area |
| Roles.SeparateSpeaker | js/massEmotions.js:153-157 | no speaker and no audience exactly for an empty frame; otherwise the speaker is the earliest largest face, speaker plus audience are the frame's faces, no audience face is larger, and the audience is in non-increasing area order |
| Roles.SeparateSpeakerStable | js/massEmotions.js:155-156 | faces of equal area keep their detection order across speaker and audience |
| Tracking.Centre | js/massEmotions.js:73-75 | the middle of the image (0.5, 0.5) when there is no box; otherwise the point halfway between the box's left and right edges and halfway between its top and bottom edges |
| Tracking.BestIsFirstNearest | js/massEmotions.js:77-86 | the scan finds nothing exactly when no identity is live (seen within 300 frames); otherwise a live identity at minimal distance, the earliest-created on an exact tie |
| Tracking.MatchIsNearestInReach | js/massEmotions.js:77-91 | an identity is reused exactly when some live identity lies strictly within 0.15; it is then the nearest live one, earliest-created on ties |
| Tracking.TrackStepValid | js/massEmotions.js:88-95 | one tracker call keeps identity numbers increasing in creation order and below the counter |
| Tracking.TrackStepReuses | js/massEmotions.js:88-91 | when an identity is in reach, the call returns the nearest live one, moves it to the face's centre and frame, and changes no other identity and not the counter |
| Tracking.TrackStepAllocates | js/massEmotions.js:93-95 | otherwise the call returns the counter's number, larger than every number ever handed out, appends it at the face's centre, and advances the counter |
| Tracking.TrackAllFacts | js/massEmotions.js:69-96 | over any run the invariant holds, the counter never decreases, the number of tracked identities never shrinks, and every returned identity is below the counter and still tracked |
| Tracking.Tracker.constructor | js/massEmotions.js:69-70 | a new tracker has no identities and hands out 1 first |
| Tracking.Tracker.Nearest | js/massEmotions.js:77-86 | the loop over identities returns the scan's result and its squared distance |
| Tracking.Tracker.Assign | js/massEmotions.js:72-96 | the returned identity and the tracker's new state are those of one `TrackStep` call on the old state; the invariant is kept |
| MassEmotionsAnalysis.NormaliseFrame | js/massEmotions.js:187-191 | a frame's faces are normalised one by one, in detection order, none dropped or added |
| MassEmotionsAnalysis.FrameObservations | js/massEmotions.js:193-197 | a frame yields one processed face per detected face, each carrying the frame's index; the first is the speaker and no other is |
| MassEmotionsAnalysis.FrameProcessedOnce | js/massEmotions.js:193-199 | the faces a frame processes are exactly its detected faces, each once (equal as multisets) |
| MassEmotionsAnalysis.SpeakerProcessedFirst | js/massEmotions.js:193-196 | in a non-empty frame the face processed first, as speaker, is the earliest-detected face of largest area |
| MassEmotionsAnalysis.AudienceProcessedBySize | js/massEmotions.js:193-197 | the audience, processed after the speaker, comes in non-increasing area order, none larger than the speaker |
| MassEmotionsAnalysis.DetectedFaces | js/massEmotions.js:183-191 | the detected faces of a video, normalised, number as many as the faces detected |
| MassEmotionsAnalysis.ObservationsFaces | js/massEmotions.js:183-199 | over the whole video the processed faces are exactly the detected faces, each processed once (equal as multisets) |
| MassEmotionsAnalysis.ObservationsCount | js/massEmotions.js:183-199 | as many faces are processed as are detected |
| MassEmotionsAnalysis.ObservationsInFrameOrder | js/massEmotions.js:183-199 | faces are processed in frame order, each with an index within the video |
| MassEmotionsAnalysis.MakeRow | js/massEmotions.js:224-261 | a row is distracted exactly when it carries a reason |
| MassEmotionsAnalysis.RowsAt | js/massEmotions.js:248-261 | the k-th CSV row is the row of the k-th processed face with that face's identity |
| MassEmotionsAnalysis.SummaryOfFacts | js/massEmotions.js:226-245 | a person's record counts each of their rows once, never more distracted frames than frames, and the reason buckets add up to the distracted frames with `unknown` never used |
| MassEmotionsAnalysis.SummaryOfDistracted | js/massEmotions.js:240-245 | a record's distracted frames are its distracted rows |
| MassEmotionsAnalysis.EmotionsOfSize | js/massEmotions.js:219-221 | a person's emotion table holds one count per row |
| MassEmotionsAnalysis.RecordFaceConsistent | js/massEmotions.js:199-262 | recording one more face keeps rows, tables, records, person list and counters in step with the faces seen |
| MassEmotionsAnalysis.RecordedConsistent | js/massEmotions.js:199-262 | after any sequence of faces the rows are the faces' rows in order, each person seen has exactly one table, record and place in the person list, each record and table is that person's rows, and every counter counts its faces |
| MassEmotionsAnalysis.PersonSummaryFacts | js/massEmotions.js:219-245 | every recorded person has a table and a place in the person list; their frames equal the faces given their identity (at least one), distracted ≤ frames, buckets add up, and the table's counts add up to the frames |
| MassEmotionsAnalysis.SpeakerSpeaksAtMostOncePerFrame | js/massEmotions.js:193-205 | the speaker's speaking count is at most the number of frames |
| MassEmotionsAnalysis.BalanceBound | js/massEmotions.js:207-212 | positive and negative audience counts together never exceed the audience faces (the emotion sets are disjoint) |
| MassEmotionsAnalysis.CounterBounds | js/massEmotions.js:201-212 | in a consistent state the audience speaking count and the positive plus negative counts are each at most the audience faces |
| MassEmotionsAnalysis.DistractionRate | js/massEmotions.js:270-275 | 0 for a record without frames; otherwise rate × frames = distracted frames, and the rate lies in [0, 1] |
| MassEmotionsAnalysis.SpeakingRatio | js/massEmotions.js:296-302 | the ratio is the `Infinity` sentinel exactly when the audience never spoke; otherwise it is non-negative and ratio × audience = speaker |
| MassEmotionsAnalysis.EmotionBalance | js/massEmotions.js:308-315 | both rates 0 when nothing was counted; otherwise both in [0, 1], adding up to 1, and proportional to the counts |
| MassEmotionsAnalysis.DistractionRates | js/massEmotions.js:270-275 | the rate loop gives every recorded person, and only them, their distraction rate |
| MassEmotionsAnalysis.RatesInRange | js/massEmotions.js:270-275 | every rate of a consistent state lies in [0, 1] |
| MassEmotionsAnalysis.ProcessFace | js/massEmotions.js:199-262 | one face, identified in its frame and recorded, advances the tracker fold and the recording fold by that face |
| MassEmotionsAnalysis.ProcessFrame | js/massEmotions.js:199-262 | the per-face loop of a frame leaves the tracker and the state as the tracker fold and the recording fold give them for the faces processed |
| MassEmotionsAnalysis.Finish | js/massEmotions.js:269-315 | the final outputs: every person's rate in [0, 1], the speaking output with its ratio, the emotion balance |
| MassEmotionsAnalysis.AnalyzeFrames | js/massEmotions.js:183-263 | the frame loop's result is the recording fold over all faces with the identities the tracker gave |
| MassEmotionsAnalysis.AnalyzeVideo | js/massEmotions.js:162-322 | the whole analysis: the tracker ends as the tracker fold gives; the loop state is consistent with all faces and identities; rates, speaking output and balance are as above |
| PublicMassEmotions.FlagOn | public/js/massEmotions.js:34-35 | a flag reads true exactly when the detector says true; missing reads false |
| PublicMassEmotions.FormatFaceData | public/js/massEmotions.js:16-40 | the emotion label as in the full analyser, eyes- and mouth-open true only when reported true, the gaze Unknown unless trusted and otherwise classified, the box kept and its area |
| PublicMassEmotions.AgreesWithFullRecord | public/js/massEmotions.js:16-40 | the server and full records agree on emotion, gaze, box and area; the server's flags are true exactly when the full record's are `true` |
| PublicMassEmotions.SpeakerIdentifiedLast | public/js/massEmotions.js:117-139 | in a non-empty frame the face identified last is the earliest largest face |
| PublicMassEmotions.AudienceIdentifiedBySize | public/js/massEmotions.js:90-131 | the audience is identified first, in non-increasing area order, none larger than the speaker |
| PublicMassEmotions.FrameIdentifiedOnce | public/js/massEmotions.js:117-139 | every face of the frame is identified exactly once |
| PublicMassEmotions.ObservationsFaces | public/js/massEmotions.js:112-139 | over the whole video the identified faces are exactly the detected faces, each identified once (equal as multisets) |
| PublicMassEmotions.ObservationsCount | public/js/massEmotions.js:112-139 | as many faces are identified as are detected |
| PublicMassEmotions.Bump | public/js/massEmotions.js:128 | one more face adds one to its direction's counter and leaves the other three unchanged |
| PublicMassEmotions.Histogram | public/js/massEmotions.js:108 | each of the four counters is the number of faces looking that way |
| PublicMassEmotions.HistogramAppend | public/js/massEmotions.js:128-137 | one more face bumps exactly its direction's counter |
| PublicMassEmotions.HistogramTotal | public/js/massEmotions.js:108-139 | the four counters add up to the number of faces |
| PublicMassEmotions.ExpectedAppend | public/js/massEmotions.js:119-137 | one more face changes the counters by exactly that face's updates |
| PublicMassEmotions.SpeakerSpeaksAtMostOncePerFrame | public/js/massEmotions.js:119 | the speaker's speaking count is at most the number of frames |
| PublicMassEmotions.CounterBounds | public/js/massEmotions.js:119-137 | the histogram adds up to the faces; eyes- and mouth-open totals are at most the faces; audience speaking and positive plus negative are at most the audience faces |
| PublicMassEmotions.ReportBounds | public/js/massEmotions.js:100-147 | the same bounds over a whole video, with the speaker's count at most the number of frames and the totals against all detected faces |
| PublicMassEmotions.CountAudienceFace | public/js/massEmotions.js:122-128 | the audience updates of one face are its contribution to the counters |
| PublicMassEmotions.CountSpeakerFace | public/js/massEmotions.js:135-137 | the speaker updates are the speaker's contribution, its speaking count excepted |
| PublicMassEmotions.ProcessAudienceFace | public/js/massEmotions.js:121-130 | one audience face is counted and identified: the counters and the tracker advance by that face |
| PublicMassEmotions.ProcessAudience | public/js/massEmotions.js:120-132 | the audience loop leaves the counters and the tracker as the folds give them over the audience in order |
| PublicMassEmotions.ProcessSpeaker | public/js/massEmotions.js:134-139 | the speaker block completes the frame's counters and identifies the speaker |
| PublicMassEmotions.ProcessFrame | public/js/massEmotions.js:113-139 | one frame leaves the counters and the tracker as the folds give them over the frame's faces: the speaker's speaking count first, then the audience, then the speaker's other counters and identification |
| PublicMassEmotions.AnalyzeVideo | public/js/massEmotions.js:96-148 | the returned counters count, over all faces of all frames, exactly the faces each is meant to count; the tracker ends as the tracker fold gives |
| Reflection.SortedTop | reflection.js:30-31 | the head of the emotions sorted by decreasing confidence is the earliest entry of maximal confidence |
| Reflection.SortedTopIsTopEmotion | reflection.js:30-31 | sorting and taking the head picks the same entry as the other analysers' reduction |
| Reflection.NormaliseFace | reflection.js:28-83 | fails exactly when the emotion list is missing or empty; otherwise the earliest maximal emotion's own label and confidence, gaze Unknown unless trusted and otherwise classified by yaw, attributes with `null`/0 defaults, yaw 0 without pose |
| Reflection.AnalyzeBuffer | reflection.js:24-84 | no face exactly for a missing or empty face list; failure exactly when the first face has no emotions; otherwise the first face's record |
| Reflection.OnlyFirstFace | reflection.js:28 | faces after the first never change a frame's result |
| Reflection.AnalyzeVideo | reflection.js:124-134 | succeeds exactly when every frame does; then one result per frame, result i tagged with second i and holding frame i's result |
| Reflection.SettleFacts | reflection.js:124-134 | frames settling in any order fail the whole exactly when a settled frame fails; otherwise each settled frame's slot holds its own tagged result |
| Reflection.SettleInAnyOrder | reflection.js:124-134 | whatever order the frames settle in, the result is the timeline in frame order, or the failure exactly when the timeline fails |

## Left out

- Frame extraction with ffmpeg is left out. The frames are the input sequence.
- The face-detector calls are left out. Each frame's detector answer is an input.
- Failed detector calls are not modelled. In all three analysers a rejected call rejects the whole run.
- Concurrency limits (`pLimit`) are left out. The multi-face loops await each frame in turn. For the single-face analyser, only the order in which frames settle is modelled (`Reflection.Settle`).
- File and console output is left out: `writeFileSync`, CSV string joining, JSON layout and key order, and `toFixed(3)` rounding. Rows are records, and rates are exact reals.
- Floating point is not modelled. Numbers are reals, divisions are exact, and `Math.hypot` is replaced by the squared distance compared with 0.15². Both distances order identically.
- The script invocation at the end of the full analyser, the server routes, the browser UI and the chart rendering are left out.
- The `faceFound: false` return of the face normaliser for a missing face is left out. The detector never returns a missing face inside its list.
- A present bounding box is assumed to have all four coordinates.
- A JavaScript `undefined` or `NaN` inside a present number (for example an emotion without `Confidence`) is left out. Numbers inside present records are always reals.
- In the full analyser, each person's rate is returned in a map keyed by person. The source writes it into the person's record.
- In the server analyser, the returned object's four groups are one flat `Report` record.
- Detector.BoxArea: its contract states only the missing-box case. The product width × height is its definition. It is kept out of contracts because nonlinear real arithmetic makes the prover unstable.
- Tracking.Tracker: identities are numbers `n` standing for `person_<n>`. The tracker's state is passed between analyses explicitly, whereas the source keeps it as module state.
