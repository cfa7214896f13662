# HMM movement recognition engine, modelled in Dafny

This project models the recognition engine of the BodyTracking application. The engine is the
`HMM` class together with the namespace-scope state it shares (`BodyModel/Sources/HMM.cpp`).
During a recognition session it buffers one point per tracker per frame, in six per-tracker
buffers: head, left hand, right hand, hip, left foot, right foot. When the session stops, it
decides on one of two verdicts:

- **verify** (`stopRecognition`): each scorable tracker must clear the threshold of one
  trained pattern;
- **identify** (`stopRecognitionAndIdentify`): each scorable tracker votes for the most likely
  of three trained patterns. A strict majority selects a pattern. Each tracker is then
  re-checked against the winner's stored likelihood and threshold vectors (pattern 1's for a
  pattern-2 win).

Modules:

- `Wrappers`: `Option`.
- `Pose`: positions, quaternions, buffered points, the seven-component feature vector, and
  the ordering invariant of a buffer.
- `Trackers`: the six slots and the name-to-slot lookup.
- `Models`: the trained collaborators, i.e. the cluster model (`KMeans`) and the sequence model
  (`HMMModel`). Each is a value of functions supplied by the caller:
  - `loads`: whether the cluster file can be read;
  - `symbols`: nearest-cluster assignment after normalisation;
  - `likelihood`: the sequence model's probability;
  - `threshold`: the sequence model's decision threshold.
- `Decision`: the pure steps. These are the first-maximum argmax (`std::max_element`), vote
  counting (`std::count`), the strict-majority winner and `std::all_of`.
- `Sessions`: the verify verdict and the identify outcome as functions of the buffers and the
  models, with the lemmas that say what they mean.
- `Engine`: the `HMM` class. It holds the four mode flags, the counters, the reference-frame
  fields and `recognitionPoints: array<seq<Point>>`. Its methods update these in place. The
  two stop methods change nothing and are proved against the functions of `Sessions`.

The class invariant `Valid()` says three things. There are six buffers. There are six tracker
tags. Within every buffer the point indices strictly increase and stay below `dataPointNumber`,
so indices within a session are strictly increasing. Every method that changes state preserves it.

Behaviour of the code that a caller might not expect, which the model keeps:

- When identification finds no strict majority, including when no vote is cast at all, the
  code returns `true` (`IdentifyAcceptsWithoutWinner`, `IdentifyAcceptsWhenNothingScored`).
  Callers cannot tell "no pattern identified" from "identified and accepted".
- `startRecording` tests only `record`, not whether recognition is active, so it is not a
  no-op while recognition is selected.
- A pattern-2 win is re-checked against pattern 1's vectors (`RecheckedPattern`,
  `IdentifyPattern2UsesPattern1`).
- When a pattern wins but fewer than six trackers were scored, the bounds-checked access
  throws `std::out_of_range`. The model returns the `OutOfRange` outcome
  (`IdentifyOutOfRange`).

## Model

| member | source | states |
|---|---|---|
| `Trackers.SlotOf` | BodyModel/Sources/HMM.cpp:287-292 | the slot chosen for a name holds that name and no earlier slot does; no slot exactly when the name is in no slot |
| `Pose.Features` | BodyModel/Sources/HMM.cpp:270-284 | a buffered feature vector has seven components, orientation x at index 3 and w last |
| `Decision.FirstMax` | BodyModel/Sources/HMM.cpp:191-204 | the vote is an index holding the maximum of the likelihoods, with every earlier likelihood strictly smaller (first maximum wins) |
| `Decision.FirstMaxIsLowestMax` | BodyModel/Sources/HMM.cpp:202-204 | any index that holds the maximum with only smaller values before it is the vote |
| `Decision.Count` | BodyModel/Sources/HMM.cpp:207-210 | a pattern's count is at most the number of votes |
| `Decision.CountIsMultiplicity` | BodyModel/Sources/HMM.cpp:207-210 | a pattern's count is the number of occurrences of that pattern among the votes |
| `Decision.CountPositiveIffVoted` | BodyModel/Sources/HMM.cpp:207-210 | a pattern's count is positive iff some vote names it |
| `Decision.CountsPartitionVotes` | BodyModel/Sources/HMM.cpp:207-210 | the counts of patterns 0, 1 and 2 add up to the number of votes |
| `Decision.Majority` | BodyModel/Sources/HMM.cpp:213-233 | the chosen pattern is one of the three, and each pattern is chosen iff its count strictly exceeds both others, so the order of the tests favours no pattern |
| `Decision.WinnerIsStrictMajority` | BodyModel/Sources/HMM.cpp:213-233 | pattern k is selected iff its count strictly exceeds each other pattern's count |
| `Decision.NoVotesNoWinner` | BodyModel/Sources/HMM.cpp:207-213 | with no votes no pattern is selected |
| `Decision.UnanimousWinner` | BodyModel/Sources/HMM.cpp:207-225 | a non-empty unanimous vote selects its pattern |
| `Decision.ThreeWayTieNoWinner` | BodyModel/Sources/HMM.cpp:213-233 | votes [0,0,1,1,2,2] select no pattern |
| `Decision.PluralityWinner` | BodyModel/Sources/HMM.cpp:213-218 | votes [0,0,0,1,1,2] select pattern 0 |
| `Decision.AllOf` | BodyModel/Sources/HMM.cpp:234-239 | the all-of is true iff every flag is true |
| `Sessions.VerifyRejectsWhenOff` | BodyModel/Sources/HMM.cpp:81-137 | verification rejects when recognition is not selected |
| `Sessions.VerifyAcceptsEmptySession` | BodyModel/Sources/HMM.cpp:99-134 | all-empty buffers are accepted whatever the models are |
| `Sessions.VerifyRejectsAtThreshold` | BodyModel/Sources/HMM.cpp:114 | a scorable tracker whose likelihood equals its threshold makes verification fail (strict comparison) |
| `Sessions.VerifyIgnoresUnscorable` | BodyModel/Sources/HMM.cpp:100-102 | trackers with no points or no model do not influence the verdict |
| `Sessions.ScoredTrackersInOrder` | BodyModel/Sources/HMM.cpp:172-174 | the scored trackers are listed once each in increasing order, and a tracker is listed iff it has points and all three cluster files loaded |
| `Sessions.ScoredTrackersFull` | BodyModel/Sources/HMM.cpp:172-174 | all trackers are scored iff all six are listed, and then the j-th listed tracker is tracker j |
| `Sessions.VotesFollowTrackers` | BodyModel/Sources/HMM.cpp:172-204 | exactly one vote per scored tracker, in tracker order, each the first maximum of that tracker's three likelihoods |
| `Sessions.VotesArePatterns` | BodyModel/Sources/HMM.cpp:202-204 | every vote is 0, 1 or 2 |
| `Sessions.ColumnsFollowTrackers` | BodyModel/Sources/HMM.cpp:185-197 | each pattern's likelihood and threshold vectors hold one entry per scored tracker, in tracker order |
| `Sessions.NoScoredNoVotes` | BodyModel/Sources/HMM.cpp:172-206 | when no tracker is scored no vote is cast |
| `Sessions.RecheckedPattern` | BodyModel/Sources/HMM.cpp:213-232 | the re-checked pattern is always one of the three |
| `Sessions.IdentifyRejectsWhenOff` | BodyModel/Sources/HMM.cpp:139-241 | identification rejects when recognition is not selected |
| `Sessions.IdentifyAcceptsWithoutWinner` | BodyModel/Sources/HMM.cpp:161-236 | with no strict winner the flags stay all true and the session is accepted |
| `Sessions.IdentifyAcceptsWhenNothingScored` | BodyModel/Sources/HMM.cpp:172-236 | a session with no scored tracker is accepted |
| `Sessions.IdentifyOutOfRange` | BodyModel/Sources/HMM.cpp:213-230 | the out-of-range exception escapes iff recognition is on, a pattern wins and some tracker was not scored |
| `Sessions.IdentifyWinnerVerdict` | BodyModel/Sources/HMM.cpp:213-236 | with all six trackers scored and pattern w winning, the result is true iff every tracker passes the threshold of pattern 0 (w = 0) or pattern 1 (w = 1 or 2) |
| `Sessions.IdentifyRejectsAtThreshold` | BodyModel/Sources/HMM.cpp:213-230 | a likelihood equal to the re-checked threshold makes identification fail |
| `Sessions.IdentifyUnanimousPattern0` | BodyModel/Sources/HMM.cpp:172-236 | six scored trackers that each prefer pattern 0 and pass its thresholds give a pattern-0 win and acceptance |
| `Sessions.IdentifyPattern2UsesPattern1` | BodyModel/Sources/HMM.cpp:225-232 | a unanimous pattern-2 win is rejected when one tracker fails pattern 1's threshold, whatever pattern 2's thresholds say |
| `Engine.HMM.constructor` | BodyModel/Sources/HMM.cpp:26-39 | ingestion gates off (the engine is inactive), counters zero, six empty buffers |
| `Engine.HMM.IsRecordingActive` | BodyModel/Sources/HMM.cpp:41-44 | recording is reported active only while `record` is set, and never together with recognition |
| `Engine.HMM.IsRecognitionActive` | BodyModel/Sources/HMM.cpp:46-49 | recognition is reported active only while `recognition` is set, and never while `record` is set |
| `Engine.HMM.ActiveReportsExclusive` | BodyModel/Sources/HMM.cpp:41-49 | recording-active and recognition-active are never reported together |
| `Engine.HMM.HmmActive` | BodyModel/Sources/HMM.cpp:243-246 | an inactive engine has both gates closed; `RecordMovement` then changes no field and no buffer |
| `Engine.HMM.HmmRecording` | BodyModel/Sources/HMM.cpp:248-250 | an open recording gate makes the engine active |
| `Engine.HMM.HmmRecognizing` | BodyModel/Sources/HMM.cpp:252-254 | an open recognition gate makes the engine active |
| `Engine.HMM.Init` | BodyModel/Sources/HMM.cpp:51-55 | the user height is taken from the headset position and the line count restarts at 0 |
| `Engine.HMM.StartRecording` | BodyModel/Sources/HMM.cpp:57-63 | with `record` set the file number goes up by exactly one and the line count restarts; otherwise nothing changes |
| `Engine.HMM.StopRecording` | BodyModel/Sources/HMM.cpp:65-69 | no engine state changes |
| `Engine.HMM.StartRecognition` | BodyModel/Sources/HMM.cpp:71-79 | with `recognition` set all six buffers are empty and the point and line counts are 0; otherwise nothing changes |
| `Engine.HMM.RecordMovement` | BodyModel/Sources/HMM.cpp:256-297 | nothing changes unless recording or recognising. With `recognition` set, exactly the named tracker's buffer gains one point tagged with the old point index, and an unknown name adds to no buffer. The point index advances by one either way. The buffer invariant is kept |
| `Engine.HMM.StopRecognition` | BodyModel/Sources/HMM.cpp:81-137 | the result is true iff recognition is on and every tracker with points and a loaded model has likelihood strictly above its threshold; no state changes |
| `Engine.HMM.StopRecognitionAndIdentify` | BodyModel/Sources/HMM.cpp:139-241 | the result is the identify outcome (votes, strict-majority winner, re-check, out-of-range); no state changes |
| `Engine.DecideIdentity` | BodyModel/Sources/HMM.cpp:207-239 | the result is the decision from the counts: accept without a strict winner; otherwise the all-of of the re-check against pattern 0's vectors (win 0) or pattern 1's (win 1 or 2), or out-of-range when they are short |
| `Engine.Recheck` | BodyModel/Sources/HMM.cpp:215-230 | the access is in range iff both vectors have six entries; then flag ii is true iff likelihood ii exceeds threshold ii, and all flags hold iff every likelihood exceeds its threshold |

## Left out

- Logging: the calls into the session logger (`startHMMLogger`, `endHMMLogger`, `saveHMMData`, `analyseHMM`) and `Kore::log`. They are file and console output only; comments in `StartRecording`, `StopRecording`, `RecordMovement`, `StopRecognition`, `StopRecognitionAndIdentify` and `DecideIdentity` mark where they happen. `Logger.cpp` is not part of this model.
- The internals of clustering (`KMeans`, `normaliseMeasurements`) and of the sequence model (`HMMModel`). Their files are not part of this model. They are functions supplied by the caller in `Models.TrainedPattern`, and a missing cluster file is the `loads` flag rather than an exception.
- The `HMMModel` constructors run outside the `try` blocks. If a sequence-model file were missing while its cluster file loaded, `std::invalid_argument` would escape. The model assumes the sequence model loads whenever the cluster model does.
- Model-file path and name construction with `sprintf`: this is file-location plumbing.
- `position.normalize()` is the host library's vector normalisation. It becomes the `normalize` parameter of `RecordMovement`.
- Floating point becomes `real`, so there is no rounding and no NaN. The narrowing of the logged probability to `float` is not modelled: that value is only logged.
- `startRotCos` and `startRotSin` are read only in commented-out code, so they are not modelled.
- The point counters are unbounded naturals, so 32-bit `int` overflow is not modelled.
- The namespace-scope buffers and counters are fields of the one engine object. In the source a second `HMM` object would share them, and only the file number is reset by its constructor.
- The header that declares `record`, `recognition` and the six tracker tags is not part of this model. The flags and tags are constructor parameters, and no method of the engine assigns any of the four flags.
- The timestamp argument of `recordMovement` is only passed to the logger.
