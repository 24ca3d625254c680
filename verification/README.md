# MediaPipe holistic analysis: classifiers and session aggregation

This project models the decision logic of the MediaPipe holistic analysis UI.
Each camera frame yields landmark lists for the face, pose and hands. Three
classifiers read them:

- the **expression** classifier computes six facial features plus two gaps
  used in single scores (eight fields of `FaceFeatures`), seven clamped linear
  emotion scores, a normalised distribution, and the arg-max emotion;
- the **posture** classifier applies a four-row priority table on the torso,
  then adds a `SITTING_`/`STANDING_` prefix from the knees;
- the **eye-contact** classifier runs in stages: an eye-aspect-ratio gate, a
  head-pose gate, then an additive gaze score mapped to four statuses.

The session hook (`useHolisticAnalysis`) turns each frame into a record and
keeps a ten-second window of records. Every ten seconds it appends one
summary to the history: means, a majority face flag, a rounded hand count, a
hand vote and plurality votes on the labels. On stop it clears the window
but keeps the history. Export lists the history with whole-number
percentages. The timer component formats the elapsed seconds as `MM:SS` or
`HH:MM:SS`. `App.tsx` repeats most of this inline and adds a simpler
eye-contact check with a looser threshold; the model relates each inline copy
to the shared one.

The files are:

- `landmarks.dfy`: modules `Landmarks` and `Holistic`. A landmark list is a
  `seq<Option<Landmark>>`, which models a sparse JavaScript array: an index
  past the end and a hole both read as absent.
- `expression.dfy`: module `Expression`.
- `posture.dfy`: module `Posture`.
- `eye_contact.dfy`: module `EyeContact`.
- `stats.dfy`: module `Stats`, holding sums, means, `Math.round` and the
  `reduce`-based vote.
- `frame.dfy`: module `Frame`, the per-frame record.
- `session.dfy`: module `Session`, covering the window, the summary, and the
  start, tick and stop transitions.
- `export.dfy`: module `Export`.
- `timer.dfy`: module `Timer`.
- `app.dfy`: module `App`, the inline variants in `App.tsx`.

`Date.now()` is a `now` parameter (and the record's own reading a `stamp`).
The 10-second and 1-second intervals are explicit `Aggregate` and `Tick`
steps. Numbers are Dafny `real`s.

The model follows the code on these easily misread details:

- the emotion arg-max `reduce((a, b) => a > b ? a : b)` keeps the **later**
  key on equal weights, so a tie such as happy = sad reports `sad`;
- with two hands of equal mean visibility the dominant hand is `right`;
- the window keeps records with `timestamp > now - 10000` (strict);
- the label vote `reduce((a, b) => count(a) >= count(b) ? a : b)` is an exact
  plurality with the earliest-seen label winning ties (`Stats.MostCommon`);
- the inline eye check in `App.tsx` calls eyes closed for mean aspect ratios
  `<= 0.25`, the shared classifier only for `< 0.2`.

The expression classifier's `totalScore > 0` test always passes for a face.
With the mouth and eye openings non-negative, the happy, sad and surprised
scores can all be 0 only when the neutral score is 0.6
(`Expression.FaceScoresPositive`). So every face gets weights summing to 1,
and the all-zero fallback is reached only without a face.

## Model

| member | source | states |
|---|---|---|
| Holistic.PoseSource | mediapipe-holistic-ui/src/utils/postureDetection.js:2 | the pose list is the first of screen landmarks, `poseLandmarks`, world landmarks that exists; an empty array still counts as existing |
| Expression.Features | mediapipe-holistic-ui/src/utils/expressionDetection.js:57-70 | mouth opening and width, eye opening and nose width are absolute differences, hence non-negative |
| Expression.Clamp | mediapipe-holistic-ui/src/utils/expressionDetection.js:73-75 | `max(0, min(1, x))` lies in [0,1], is the identity on [0,1] and sends values below/above to 0/1 |
| Expression.RawScores | mediapipe-holistic-ui/src/utils/expressionDetection.js:73-102 | with non-negative mouth and eye openings, happy, sad or surprised is positive, or else curvature, openings and eyebrow height all vanish and neutral is exactly 0.6 |
| Expression.ClampAll | mediapipe-holistic-ui/src/utils/expressionDetection.js:73-102 | every emotion's score is the clamp of its raw linear score |
| Expression.Scores | mediapipe-holistic-ui/src/utils/expressionDetection.js:73-102 | all seven scores lie in [0,1] |
| Expression.Normalize | mediapipe-holistic-ui/src/utils/expressionDetection.js:104-116 | with a positive total each weight times the total is its score and the weights sum to 1; otherwise every weight is 0; either way every weight lies in [0,1] |
| Expression.NormalizedSumsToOne | mediapipe-holistic-ui/src/utils/expressionDetection.js:105-116 | dividing by a positive total gives weights summing to exactly 1 |
| Expression.NormalizedInUnit | mediapipe-holistic-ui/src/utils/expressionDetection.js:108-116 | each normalised weight lies in [0,1] and scales back to its score |
| Expression.Reduce | mediapipe-holistic-ui/src/utils/expressionDetection.js:119-122 | continuing the `reduce` from a running best that is the latest maximum of the keys already scanned ends at the latest maximum of all keys |
| Expression.Dominant | mediapipe-holistic-ui/src/utils/expressionDetection.js:119-122 | the arg-max is the latest emotion, in key order, among those of maximal weight |
| Expression.LatestMaxUnique | mediapipe-holistic-ui/src/utils/expressionDetection.js:119-122 | at most one emotion is the latest maximal one |
| Expression.DominantIsLatestMax | mediapipe-holistic-ui/src/utils/expressionDetection.js:119-122 | the arg-max is an emotion exactly when that emotion is the latest maximal one |
| Expression.Classify | mediapipe-holistic-ui/src/utils/expressionDetection.js:119-128 | the label is the key of the latest maximal emotion and the confidence is that emotion's weight; the distribution is returned as given |
| Expression.DetectExpression | mediapipe-holistic-ui/src/utils/expressionDetection.js:1-128 | no face (absent or empty) gives `not detected`, 0 and all-zero emotions; a face gives weights in [0,1] summing to exactly 1, labelled with its latest maximal emotion and that emotion's weight |
| Expression.KeyInjective | mediapipe-holistic-ui/src/utils/expressionDetection.js:108-116 | distinct emotions have distinct keys, none of them `not detected` |
| Expression.EmotionsAreNormalizedClampedScores | mediapipe-holistic-ui/src/utils/expressionDetection.js:73-116 | for a face the clamped scores have a positive total, and each reported weight times that total is the emotion's raw linear score cut to [0,1] |
| Expression.FaceAlwaysLabelled | mediapipe-holistic-ui/src/utils/expressionDetection.js:119-127 | with a face the label is an emotion key, never `not detected`, and the confidence is that emotion's weight, in [0,1] and at least every other weight |
| Expression.FaceScoresPositive | mediapipe-holistic-ui/src/utils/expressionDetection.js:105-116 | the clamped scores of any measured face sum to more than 0, so the `totalScore > 0 ? … : 0` fallback is never taken for a face |
| Expression.AllZeroIsNeutral | mediapipe-holistic-ui/src/utils/expressionDetection.js:119-122 | on all-zero weights the arg-max is `neutral`, the last key; only a missing face produces such weights |
| Expression.TieGoesToLaterKey | mediapipe-holistic-ui/src/utils/expressionDetection.js:119-122 | `happy` and `sad` tied at the maximum resolve to `sad` |
| Posture.Measure | mediapipe-holistic-ui/src/utils/postureDetection.js:23-35 | the vertical distance is the absolute gap between the shoulder and hip centres; it and the shoulder misalignment are non-negative |
| Posture.DetectPosture | mediapipe-holistic-ui/src/utils/postureDetection.js:1-73 | `not detected` exactly when the pose list is missing or empty or a shoulder or hip is absent; otherwise a prefix-plus-base label with confidence in {0.8, 0.85, 0.9} |
| Posture.Classify | mediapipe-holistic-ui/src/utils/postureDetection.js:40-53 | the four rows in priority order, each class as an if-and-only-if on the vertical distance and shoulder alignment: its row holds and no earlier row does |
| Posture.StanceOf | mediapipe-holistic-ui/src/utils/postureDetection.js:55-71 | `STANDING_` is only ever given when both knees are present |
| Posture.UnevenShouldersLeanForward | mediapipe-holistic-ui/src/utils/postureDetection.js:41-45 | a tall torso with uneven shoulders is LEAN_FORWARD, not STRAIGHT |
| Posture.DetectedPosture | mediapipe-holistic-ui/src/utils/postureDetection.js:40-73 | row by row: a detected posture is the stance prefix followed by `STRAIGHT`/0.9, `LEAN_FORWARD`/0.8, `SLOUCHED`/0.85 or `LEAN_BACK`/0.8 under that row's condition |
| Posture.StanceRule | mediapipe-holistic-ui/src/utils/postureDetection.js:55-71 | a missing knee gives SITTING; with both knees, SITTING exactly when the hip-knee gap is below 0.8 of the shoulder-hip gap |
| Posture.ConfidenceIgnoresKnees | mediapipe-holistic-ui/src/utils/postureDetection.js:37-73 | two frames with the same base class get the same confidence whatever their knees |
| Posture.ParseLabelRoundTrip | mediapipe-holistic-ui/src/utils/postureDetection.js:55-73 | every one of the eight labels parses back to its stance and base |
| Posture.LabelInjective | mediapipe-holistic-ui/src/utils/postureDetection.js:55-73 | two labels are equal exactly when stance and base are |
| Posture.LabelNeverNotDetected | mediapipe-holistic-ui/src/utils/postureDetection.js:55-73 | no detected label equals `not detected` |
| EyeContact.Ear | mediapipe-holistic-ui/src/utils/eyeContactDetection.js:40-41 | the eye aspect ratio (lid gap over corner width plus 0.001) is non-negative |
| EyeContact.AvgEar | mediapipe-holistic-ui/src/utils/eyeContactDetection.js:40-42 | the mean of the two ratios is non-negative |
| EyeContact.IrisTerm | mediapipe-holistic-ui/src/utils/eyeContactDetection.js:72-89 | the iris contribution is 0.5 exactly when both irises are tracked, both eyes have non-zero width and the mean deviation is below 0.15; 0.3 exactly when that mean is in [0.15, 0.25); otherwise 0, in particular without both irises |
| EyeContact.LevelTerm | mediapipe-holistic-ui/src/utils/eyeContactDetection.js:93-109 | the eye-level contribution is 0 or 0.2, and 0.2 exactly when the vertical centres of the two eyes differ by less than 0.02 |
| EyeContact.AlignmentTerm | mediapipe-holistic-ui/src/utils/eyeContactDetection.js:93-113 | the alignment contribution is 0 or 0.3, and 0.3 exactly when the midpoint of the two horizontal eye centres lies within 0.03 of the nose tip |
| EyeContact.GazeScore | mediapipe-holistic-ui/src/utils/eyeContactDetection.js:71-114 | the score is one of the eight sums of the three terms, all in [0,1] |
| EyeContact.MapGaze | mediapipe-holistic-ui/src/utils/eyeContactDetection.js:116-132 | every mapped confidence lies in [0.5, 0.95] |
| EyeContact.MapGazeThresholds | mediapipe-holistic-ui/src/utils/eyeContactDetection.js:120-132 | strong iff score >= 0.7, maintained iff in [0.5,0.7), moderate iff in [0.3,0.5), not maintained iff below 0.3 |
| EyeContact.MapGazeMonotone | mediapipe-holistic-ui/src/utils/eyeContactDetection.js:116-132 | a higher score never maps to a lower status |
| EyeContact.MapGazeConfidence | mediapipe-holistic-ui/src/utils/eyeContactDetection.js:120-132 | each status's confidence band, with strong capped at 0.95 and maintained at 0.9 |
| EyeContact.NoseOffCentreIsScaledTest | mediapipe-holistic-ui/src/utils/eyeContactDetection.js:59-64 | the nose-deviation test, including a zero face width, is `offset > 0.15 * faceWidth` |
| EyeContact.HeadTurned | mediapipe-holistic-ui/src/utils/eyeContactDetection.js:55-64 | the head counts as turned exactly when the nose is off the cheeks' midpoint by more than 0.15 face widths or off the bridge-chin midpoint by more than 0.15 |
| EyeContact.DetectEyeContact | mediapipe-holistic-ui/src/utils/eyeContactDetection.js:1-137 | no face or a missing eye point or nose tip gives `not detected`/0; mean ratio below 0.2 gives `eyes closed`/0.95; confidence in [0, 0.95] and 0 only for `not detected` |
| EyeContact.ClosedEyesWinOverEverything | mediapipe-holistic-ui/src/utils/eyeContactDetection.js:44-50 | closed eyes decide the result before head pose or gaze is looked at |
| EyeContact.OpenEyesStages | mediapipe-holistic-ui/src/utils/eyeContactDetection.js:52-132 | with open eyes, a turned head gives `looking away`/0.85, otherwise the gaze score's mapped status |
| EyeContact.StrongNeedsIrises | mediapipe-holistic-ui/src/utils/eyeContactDetection.js:74-132 | without both iris landmarks the status is never `strong eye contact` |
| EyeContact.StrongNeedsCentredIrises | mediapipe-holistic-ui/src/utils/eyeContactDetection.js:72-132 | `strong eye contact` is reported only for a face whose irises are both tracked, whose eyes have non-zero width and whose mean iris deviation is below 0.25 |
| Stats.MeanTimesCount | mediapipe-holistic-ui/src/hooks/useHolisticAnalysis.js:94 | a `reduce`-sum divided by the length times the length is the sum |
| Stats.SumBounds | mediapipe-holistic-ui/src/hooks/useHolisticAnalysis.js:94-115 | a sum of values in [lo,hi] lies between n·lo and n·hi |
| Stats.MeanBounds | mediapipe-holistic-ui/src/hooks/useHolisticAnalysis.js:94-115 | a mean of values in [lo,hi] lies in [lo,hi] |
| Stats.RoundHalfUp | mediapipe-holistic-ui/src/hooks/useHolisticAnalysis.js:135 | `Math.round(x)` is an integer k with k - 0.5 <= x < k + 0.5 |
| Stats.RoundHalfUpUnique | mediapipe-holistic-ui/src/hooks/useHolisticAnalysis.js:135 | that integer is the only one in its half-open band |
| Stats.RoundHalfUpBounds | mediapipe-holistic-ui/src/hooks/useHolisticAnalysis.js:135 | rounding a value between two integers stays between them |
| Stats.Count | mediapipe-holistic-ui/src/hooks/useHolisticAnalysis.js:122 | `arr.filter(v => v === x).length` never exceeds the length of the array |
| Stats.CountPositive | mediapipe-holistic-ui/src/hooks/useHolisticAnalysis.js:122 | that count is positive exactly when x occurs in the array |
| Stats.FirstIndex | mediapipe-holistic-ui/src/hooks/useHolisticAnalysis.js:121-123 | the first position holding a label |
| Stats.Vote | mediapipe-holistic-ui/src/hooks/useHolisticAnalysis.js:121-123 | the `reduce` scan from a plurality-so-far ends at the earliest plurality label |
| Stats.MostCommon | mediapipe-holistic-ui/src/hooks/useHolisticAnalysis.js:121-129 | the vote returns a label occurring at least as often as any other, and the earliest-occurring such label |
| Stats.EarliestPluralityUnique | mediapipe-holistic-ui/src/hooks/useHolisticAnalysis.js:121-129 | at most one label is the earliest plurality |
| Stats.MostCommonIsEarliestPlurality | mediapipe-holistic-ui/src/hooks/useHolisticAnalysis.js:121-129 | the vote returns a label exactly when it is the earliest plurality |
| Stats.MostCommonExample | mediapipe-holistic-ui/src/hooks/useHolisticAnalysis.js:121-123 | on `a b b a a` the vote is `a` |
| Frame.VisibilitySumBounds | mediapipe-holistic-ui/src/hooks/useHolisticAnalysis.js:42-44 | visibilities in [0,1] (a missing one counting 0, holes skipped) sum to between 0 and the list length |
| Frame.MeanVisibility | mediapipe-holistic-ui/src/hooks/useHolisticAnalysis.js:53-56 | the mean times the list length (holes included) is the hole-skipping visibility sum |
| Frame.MeanVisibilityInUnit | mediapipe-holistic-ui/src/hooks/useHolisticAnalysis.js:42-44 | the mean visibility of such a list lies in [0,1] |
| Frame.PoseConfidence | mediapipe-holistic-ui/src/hooks/useHolisticAnalysis.js:42-44 | 0 without world landmarks; otherwise the mean visibility of the world landmarks (times their count it is their visibility sum), in [0,1] when the visibilities are |
| Frame.HandsDetected | mediapipe-holistic-ui/src/hooks/useHolisticAnalysis.js:47-49 | the count is at most 2, 0 iff neither hand list is non-empty, 2 iff both are |
| Frame.DominantHand | mediapipe-holistic-ui/src/hooks/useHolisticAnalysis.js:51-62 | `none` iff no hand; a single hand is dominant; with two, `left` iff its mean visibility is strictly higher, so a tie gives `right` |
| Frame.Record | mediapipe-holistic-ui/src/hooks/useHolisticAnalysis.js:39-81 | the record carries the stamp, the face flag, the hand count, dominant hand and pose confidence of the frame, and the three classifiers' labels, confidences and weights; so an emotion distribution, at most two hands with `none` iff zero, and confidences within the classifiers' ranges |
| Frame.RecordValid | mediapipe-holistic-ui/src/hooks/useHolisticAnalysis.js:42-81 | with visibilities in [0,1] every numeric field of a record lies in its range |
| Frame.RecordFaceConsistent | mediapipe-holistic-ui/src/hooks/useHolisticAnalysis.js:39-81 | the face flag is set exactly when the expression is not `not detected`; without a face both classifiers report `not detected` with 0 and no weights; with a face the weights sum to 1 |
| Session.Trim | mediapipe-holistic-ui/src/hooks/useHolisticAnalysis.js:85-87 | the kept records are exactly those of the window with timestamp above now - 10000 |
| Session.TrimConcat | mediapipe-holistic-ui/src/hooks/useHolisticAnalysis.js:87 | filtering distributes over concatenation, so order is kept |
| Session.TrimKeepsWindow | mediapipe-holistic-ui/src/hooks/useHolisticAnalysis.js:87 | a window already inside the ten seconds is kept whole |
| Session.TrimIdempotent | mediapipe-holistic-ui/src/hooks/useHolisticAnalysis.js:87 | trimming twice at the same instant is trimming once |
| Session.Push | mediapipe-holistic-ui/src/hooks/useHolisticAnalysis.js:83-87 | push then filter equals the trimmed old window followed by the new record when it is inside the window |
| Session.PushIsFilteredAppend | mediapipe-holistic-ui/src/hooks/useHolisticAnalysis.js:83-87 | after a push a record is in the window iff it was in the old window or is the new one, and it lies inside the ten seconds |
| Session.PushSameInstant | mediapipe-holistic-ui/src/hooks/useHolisticAnalysis.js:83-87 | a record stamped now is appended to a window already inside the ten seconds, nothing dropped |
| Session.Column | mediapipe-holistic-ui/src/hooks/useHolisticAnalysis.js:94-115 | the column of a numeric field has one entry per record, in order |
| Session.HandVote | mediapipe-holistic-ui/src/hooks/useHolisticAnalysis.js:98-101 | `left` iff more left than right records, `right` iff more right, `none` on a tie; records naming no hand do not vote |
| Session.Summarize | mediapipe-holistic-ui/src/hooks/useHolisticAnalysis.js:90-144 | stamped `now`; face flag iff more than half the records had a face; hand count a rounding of the mean hand count; the hand vote; each label the earliest plurality of its column |
| Session.ProcessFrame | mediapipe-holistic-ui/src/hooks/useHolisticAnalysis.js:39-88 | a frame bumps the frame count, leaves history and clock alone, and the window becomes the in-window old records followed by the new record when it is itself in the window |
| Session.Aggregate | mediapipe-holistic-ui/src/hooks/useHolisticAnalysis.js:90-148 | an empty window changes nothing; otherwise exactly the window's summary at `now` is appended and earlier ones are untouched |
| Session.SummaryMeans | mediapipe-holistic-ui/src/hooks/useHolisticAnalysis.js:94-115 | every confidence and emotion share of the summary is the arithmetic mean of that column |
| Session.SummaryValueIsMeanOf | mediapipe-holistic-ui/src/hooks/useHolisticAnalysis.js:94-115 | the summary's value for a metric is that column's mean |
| Session.AverageEmotionsGet | mediapipe-holistic-ui/src/hooks/useHolisticAnalysis.js:107-115 | each averaged emotion is the mean of that emotion's column |
| Session.MeanOfInUnit | mediapipe-holistic-ui/src/hooks/useHolisticAnalysis.js:94-115 | means of valid records' confidences lie in [0,1] |
| Session.RoundedHandsInRange | mediapipe-holistic-ui/src/hooks/useHolisticAnalysis.js:96-135 | the rounded mean hand count is 0, 1 or 2 |
| Session.SummaryInRange | mediapipe-holistic-ui/src/hooks/useHolisticAnalysis.js:94-135 | a summary of valid records has every mean in [0,1] and 0..2 hands |
| Session.FaceRateMajority | mediapipe-holistic-ui/src/hooks/useHolisticAnalysis.js:95-134 | a face rate above one half means strictly more than half the records had a face |
| Session.SummaryHandsRounded | mediapipe-holistic-ui/src/hooks/useHolisticAnalysis.js:96-135 | the hand count is the mean hand count rounded half up |
| Session.ChronologicalAppend | mediapipe-holistic-ui/src/hooks/useHolisticAnalysis.js:146 | appending a summary no earlier than the history keeps it in time order |
| Session.AggregateKeepsChronology | mediapipe-holistic-ui/src/hooks/useHolisticAnalysis.js:131-146 | summaries stamped by a non-decreasing clock stay in time order |
| Session.ElapsedSeconds | mediapipe-holistic-ui/src/hooks/useHolisticAnalysis.js:216 | `Math.floor((now - start) / 1000)` is the whole number of seconds elapsed |
| Session.ElapsedSecondsUnique | mediapipe-holistic-ui/src/hooks/useHolisticAnalysis.js:216 | that number is the only k with 1000k <= now - start < 1000(k+1) |
| Session.Tick | mediapipe-holistic-ui/src/hooks/useHolisticAnalysis.js:214-218 | a tick without a start time changes nothing; otherwise it sets the elapsed seconds and nothing else |
| Session.Start | mediapipe-holistic-ui/src/hooks/useHolisticAnalysis.js:209-213 | starting marks the stream live, records the start time and zeroes the elapsed time |
| Session.TickAfterStart | mediapipe-holistic-ui/src/hooks/useHolisticAnalysis.js:212-218 | within the first second the display shows 0, and later ticks never show less |
| Session.Stop | mediapipe-holistic-ui/src/hooks/useHolisticAnalysis.js:230-247 | stop empties the window, zeroes the frame count, clears the start time and keeps the history |
| Session.StopKeepsHistory | mediapipe-holistic-ui/src/hooks/useHolisticAnalysis.js:230-247 | stop after a summary keeps it; a summary or tick after stop changes nothing |
| Export.Percent | mediapipe-holistic-ui/src/hooks/useHolisticAnalysis.js:258 | `Math.round(x * 100)` is within half a point of 100x and in 0..100 for x in [0,1] |
| Export.PercentIsNearest | mediapipe-holistic-ui/src/hooks/useHolisticAnalysis.js:258 | the percentage is k exactly when 100x rounds to k |
| Export.PercentMonotone | mediapipe-holistic-ui/src/hooks/useHolisticAnalysis.js:258 | larger confidences never give smaller percentages |
| Export.PercentRoundsHalfUp | mediapipe-holistic-ui/src/hooks/useHolisticAnalysis.js:258 | 0.125 exports as 13, 0.124 as 12 and 1 as 100 |
| Export.ExportEmotions | mediapipe-holistic-ui/src/hooks/useHolisticAnalysis.js:263-271 | every emotion is exported as its percentage |
| Export.ExportCycle | mediapipe-holistic-ui/src/hooks/useHolisticAnalysis.js:254-276 | cycle k+1 for position k, labels and flags copied, the hand as its name, every confidence and each of the seven emotion shares rounded to a percentage |
| Export.ExportSession | mediapipe-holistic-ui/src/hooks/useHolisticAnalysis.js:249-277 | the duration is the elapsed seconds, the total is the history length, and position i is the i-th summary exported |
| Export.ExportPreservesHistory | mediapipe-holistic-ui/src/hooks/useHolisticAnalysis.js:254-276 | the document numbers cycles 1..n in history order and its labels, flags, timestamps and hand read back exactly |
| Export.ExportInRange | mediapipe-holistic-ui/src/hooks/useHolisticAnalysis.js:258-275 | a summary with every value in [0,1] exports every percentage in 0..100 |
| Export.ExportSurvivesStop | mediapipe-holistic-ui/src/hooks/useHolisticAnalysis.js:230-276 | exporting after stop gives the same document |
| Export.ParseHandRoundTrip | mediapipe-holistic-ui/src/hooks/useHolisticAnalysis.js:274 | every exported hand name reads back as its hand |
| Export.HandNameInjective | mediapipe-holistic-ui/src/hooks/useHolisticAnalysis.js:274 | distinct hands export distinct names |
| Timer.Fields | mediapipe-holistic-ui/src/components/Timer.jsx:6-8 | hours·3600 + minutes·60 + seconds is the input, minutes and seconds below 60 |
| Timer.FieldsUnique | mediapipe-holistic-ui/src/components/Timer.jsx:6-8 | that is the only such decomposition |
| Timer.NatToString | mediapipe-holistic-ui/src/components/Timer.jsx:11-13 | `toString()` gives a non-empty digit string, one digit below 10 and two below 100 |
| Timer.NatToStringValue | mediapipe-holistic-ui/src/components/Timer.jsx:11-13 | the digit string reads back as the number |
| Timer.Pad2 | mediapipe-holistic-ui/src/components/Timer.jsx:11-13 | `padStart(2, '0')` leaves a string of two or more characters alone and otherwise puts zeros in front up to two |
| Timer.Pad2Value | mediapipe-holistic-ui/src/components/Timer.jsx:11-13 | padding keeps the digits' value |
| Timer.HoursShown | mediapipe-holistic-ui/src/components/Timer.jsx:6-10 | the hours field is non-zero exactly from 3600 seconds on |
| Timer.FieldRoundTrip | mediapipe-holistic-ui/src/components/Timer.jsx:11-13 | a minute or second field below 60, padded, reads back as its value |
| Timer.HourRoundTrip | mediapipe-holistic-ui/src/components/Timer.jsx:11 | a positive hour count, padded, is at least two characters and reads back as itself |
| Timer.Render | mediapipe-holistic-ui/src/components/Timer.jsx:10-13 | without hours five characters with a colon in the middle; with hours at least eight with colons three and six characters from the end |
| Timer.RenderRoundTrip | mediapipe-holistic-ui/src/components/Timer.jsx:10-13 | either layout reads back as hours·3600 + minutes·60 + seconds |
| Timer.FormatTime | mediapipe-holistic-ui/src/components/Timer.jsx:5-14 | below an hour five characters with a colon in the middle; from an hour on at least eight with colons before minutes and seconds |
| Timer.FormatTimeRoundTrip | mediapipe-holistic-ui/src/components/Timer.jsx:5-14 | the shown fields recombine to the input seconds |
| Timer.FormatTimeInjective | mediapipe-holistic-ui/src/components/Timer.jsx:5-14 | different elapsed times never show the same text |
| Timer.HoursShownFromOneHour | mediapipe-holistic-ui/src/components/Timer.jsx:10-13 | the `MM:SS` form is used exactly below 3600 seconds |
| Timer.HundredHours | mediapipe-holistic-ui/src/components/Timer.jsx:11 | padding never truncates: 360000 seconds show as `100:00:00` |
| App.InlineAvgEar | mediapipe/mediapipe-holistic-ui/src/App.tsx:393-396 | the inline mean eye aspect ratio is non-negative |
| App.SameAspectRatio | mediapipe/mediapipe-holistic-ui/src/App.tsx:393-396 | it equals the shared classifier's ratio on the same face |
| App.InlineEyeContact | mediapipe/mediapipe-holistic-ui/src/App.tsx:373-423 | no face gives `not detected`; confidences are 0, 0.7, 0.9 or 0.95, and 0 only for `not detected` |
| App.InlineEyeContactCases | mediapipe/mediapipe-holistic-ui/src/App.tsx:394-421 | closed iff mean ratio <= 0.25; undetected iff open without a nose; maintained iff open with the nose within 0.08 across and 0.12 down of the eye centre; not maintained otherwise |
| App.InlineMissingCornerNotDetected | mediapipe/mediapipe-holistic-ui/src/App.tsx:380-391 | any of the eight eye points missing gives `not detected` |
| App.ClosedForBoth | mediapipe/mediapipe-holistic-ui/src/App.tsx:397-421 | eyes the shared classifier calls closed are closed for the inline check too |
| App.ThresholdsDisagreeBetween | mediapipe/mediapipe-holistic-ui/src/App.tsx:397-421 | mean ratios in [0.2, 0.25] are open for the shared classifier and closed inline |
| App.InlineExpression | mediapipe/mediapipe-holistic-ui/src/App.tsx:167-309 | without a face the result is `not detected`, 0 and all-zero emotions |
| App.InlineExpressionMatches | mediapipe/mediapipe-holistic-ui/src/App.tsx:167-309 | the inline expression block returns what the shared classifier returns |
| App.InlinePosture | mediapipe/mediapipe-holistic-ui/src/App.tsx:311-371 | an undetectable pose gives `not detected` |
| App.InlinePostureMatches | mediapipe/mediapipe-holistic-ui/src/App.tsx:311-371 | the inline posture block returns what the shared classifier returns |
| App.InlineRecord | mediapipe/mediapipe-holistic-ui/src/App.tsx:141-438 | the record carries the stamp, the face flag and the inline eye result |
| App.InlineRecordDiffersOnlyInEyes | mediapipe/mediapipe-holistic-ui/src/App.tsx:141-438 | the application's record is the hook's record with the eye-contact pair replaced |
| App.ProcessFrame | mediapipe/mediapipe-holistic-ui/src/App.tsx:440-444 | the application's window is the hook's push-and-trim of the inline record |
| App.Stop | mediapipe/mediapipe-holistic-ui/src/App.tsx:127-139 | stop empties the window, zeroes the frame count and keeps the history |
| App.SameWindowDiscipline | mediapipe/mediapipe-holistic-ui/src/App.tsx:127-444 | after the same frame both windows have the same length, and stop leaves both with the same history and an empty window |

The application's summary (`mediapipe/mediapipe-holistic-ui/src/App.tsx:447-508`)
is the hook's `generateSummary` without change. It is modelled once, by
`Session.Summarize` and `Session.Aggregate`, and its contract and every
`Session.Summary…` lemma above apply to it.

## Left out

- Camera and Holistic construction, result callbacks, canvas drawing, React
  state and effects, and the pages and display components. These are I/O and
  user interface.
- `setInterval`/`clearInterval`. The ten-second summary and the one-second
  timer tick are explicit `Session.Aggregate` and `Session.Tick` steps, and
  clock readings are parameters.
- The export's `exportDate`, the ISO-8601 rendering of timestamps,
  `JSON.stringify` and the download. Exported timestamps stay millisecond
  readings.
- `lastUpdate` (`toLocaleTimeString`), which is display only.
- IEEE-754 floating point. Numbers are exact reals. The few non-finite cases
  the code can reach are modelled as it behaves:
  - a zero face width in the head-pose test (`EyeContact.NoseOffCentre`);
  - a zero eye width in the iris term, where NaN comparisons add nothing.
  An empty world landmark list makes the pose confidence 0/0 (NaN); it is
  excluded by `Frame.PoseConfidenceDefined`.
- Exceptions. The source throws when a face is present but a landmark whose
  coordinates it reads is absent. These inputs are excluded by preconditions
  naming exactly those landmarks: `Expression.ExpressionDefined`, and
  `EyeContact.EyeContactDefined` for the cheeks, nose bridge and chin once
  the closed-eye gate is passed.
- Timer.FormatTime: takes a non-negative whole number of seconds. The
  component is only given the non-negative elapsed time, so negative input is
  not modelled.
- Session.Summarize: its own contract does not state the means. Those are
  stated by `Session.SummaryMeans`, so that they are proved separately from
  the votes.
- Holistic.PoseSource: absent versus present is modelled, not JavaScript
  truthiness of other values.
