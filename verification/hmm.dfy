/** The recognition engine: the HMM object with its mode flags, together with the
    namespace-scope counters and the six per-tracker point buffers it updates. */
module Engine {
  import opened Wrappers
  import opened Pose
  import opened Trackers
  import opened Models
  import opened Decision
  import opened Sessions

  class HMM {
    // Mode flags. `record` and `recognition` select what a session does; `recording` and
    // `recognizing` gate per-frame ingestion. This engine never assigns any of them.
    var record: bool
    var recognition: bool
    var recording: bool
    var recognizing: bool

    // Reference frame and per-frame translation. The start position is never set here,
    // so it keeps its zero initial value.
    var startX: real
    var startZ: real
    var transitionX: real
    var transitionY: real
    var transitionZ: real
    var currentUserHeight: real

    // Counters: the recording file number, the line within the session, and the index
    // given to the next buffered point.
    var fileNumber: nat
    var lineNumber: nat
    var dataPointNumber: nat

    /** One buffer of points per tracker slot. */
    const recognitionPoints: array<seq<Point>>
    /** The tracker name of each slot. */
    const tags: seq<string>

    /** The buffer table has one buffer per slot, and every buffer holds points whose
        indices increase and lie below the next index to hand out. */
    ghost predicate Valid()
      reads this, recognitionPoints
    {
      recognitionPoints.Length == NumTrackers && |tags| == NumTrackers &&
      forall t :: 0 <= t < NumTrackers ==> IndexedBelow(recognitionPoints[t], dataPointNumber)
    }

    constructor (record: bool, recognition: bool, tags: seq<string>)
      requires |tags| == NumTrackers
      ensures Valid() && fresh(recognitionPoints)
      ensures this.record == record && this.recognition == recognition
      ensures !recording && !recognizing && !HmmActive()
      ensures fileNumber == 0 && lineNumber == 0 && dataPointNumber == 0
      ensures forall t :: 0 <= t < NumTrackers ==> recognitionPoints[t] == []
      ensures this.tags == tags
    {
      this.record := record;
      this.recognition := recognition;
      recording, recognizing := false, false;
      startX, startZ := 0.0, 0.0;
      transitionX, transitionY, transitionZ := 0.0, 0.0, 0.0;
      currentUserHeight := 0.0;
      fileNumber, lineNumber, dataPointNumber := 0, 0, 0;
      recognitionPoints := new seq<Point>[NumTrackers](_ => []);
      this.tags := tags;
    }

    /** Recording is reported active only while recognition is not selected, so the two
        reports exclude each other. */
    predicate IsRecordingActive(): (r: bool)
      reads this
      ensures r ==> record && !IsRecognitionActive()
    {
      record && !recognition
    }

    /** Recognition is reported active only while it is selected and recording is not. */
    predicate IsRecognitionActive(): (r: bool)
      reads this
      ensures r ==> recognition
      ensures record ==> !r
    {
      recognition && !record
    }

    /** The two reports never hold at once. */
    lemma ActiveReportsExclusive()
      ensures !(IsRecordingActive() && IsRecognitionActive())
      ensures IsRecordingActive() ==> record
      ensures IsRecognitionActive() ==> recognition
    {
    }

    /** Ingestion runs while either gate is open; when neither is, RecordMovement changes
        nothing. */
    predicate HmmActive(): (r: bool)
      reads this
      ensures !r ==> !recording && !recognizing
    {
      recording || recognizing
    }

    /** An open recording gate makes the engine active. */
    predicate HmmRecording(): (r: bool)
      reads this
      ensures r ==> HmmActive()
    {
      recording
    }

    /** An open recognition gate makes the engine active. */
    predicate HmmRecognizing(): (r: bool)
      reads this
      ensures r ==> HmmActive()
    {
      recognizing
    }

    /** Takes the user's height from the headset and restarts the line count. */
    method Init(hmdPosition: Vec3, hmdRotation: Quaternion)
      modifies this`currentUserHeight, this`lineNumber
      ensures currentUserHeight == hmdPosition.y && lineNumber == 0
    {
      currentUserHeight := hmdPosition.y;
      lineNumber := 0;
    }

    /** With recording selected, starts a session under the next file number. */
    method StartRecording(hmdPosition: Vec3, hmdRotation: Quaternion)
      modifies this`currentUserHeight, this`lineNumber, this`fileNumber
      ensures record ==> fileNumber == old(fileNumber) + 1 && lineNumber == 0 && currentUserHeight == hmdPosition.y
      ensures !record ==> fileNumber == old(fileNumber) && lineNumber == old(lineNumber) &&
                          currentUserHeight == old(currentUserHeight)
    {
      if record {
        Init(hmdPosition, hmdRotation);
        // The logger opens the recording file here.
        fileNumber := fileNumber + 1;
      }
    }

    /** Closing the recording file is the only effect: no engine state changes. */
    method StopRecording()
      ensures unchanged(this) && unchanged(recognitionPoints)
    {
    }

    /** With recognition selected, empties all six buffers and restarts the point and line
        counts; otherwise does nothing. */
    method StartRecognition(hmdPosition: Vec3, hmdRotation: Quaternion)
      requires Valid()
      modifies recognitionPoints, this`dataPointNumber, this`currentUserHeight, this`lineNumber
      ensures Valid()
      ensures recognition ==>
        (forall t :: 0 <= t < NumTrackers ==> recognitionPoints[t] == []) &&
        dataPointNumber == 0 && lineNumber == 0 && currentUserHeight == hmdPosition.y
      ensures !recognition ==>
        recognitionPoints[..] == old(recognitionPoints[..]) && dataPointNumber == old(dataPointNumber) &&
        lineNumber == old(lineNumber) && currentUserHeight == old(currentUserHeight)
    {
      if recognition {
        for i := 0 to NumTrackers
          invariant forall t :: 0 <= t < i ==> recognitionPoints[t] == []
          invariant forall t :: i <= t < NumTrackers ==> recognitionPoints[t] == old(recognitionPoints[t])
          invariant Valid()
        {
          recognitionPoints[i] := [];
        }
        dataPointNumber := 0;
        Init(hmdPosition, hmdRotation);
      }
    }

    /** One frame of one tracker. While ingestion is on, counts a line and the translation;
        with recognition selected, tags the sample with the next point index and appends it
        to exactly the buffer whose slot the name selects (none for an unknown name).
        `normalize` is the vector normalisation of the host library. */
    method RecordMovement(lastTime: real, name: string, position: Vec3, rotation: Quaternion,
                          normalize: Vec3 -> Vec3)
      requires Valid()
      modifies recognitionPoints, this`lineNumber, this`dataPointNumber,
               this`transitionX, this`transitionY, this`transitionZ
      ensures Valid()
      ensures !HmmActive() ==> unchanged(this) && unchanged(recognitionPoints)
      ensures HmmActive() ==>
        lineNumber == old(lineNumber) + 1 && transitionX == position.x - startX &&
        transitionY == position.y && transitionZ == position.z - startZ
      ensures dataPointNumber == old(dataPointNumber) + (if HmmActive() && recognition then 1 else 0)
      ensures forall t :: 0 <= t < NumTrackers ==>
        recognitionPoints[t] == old(recognitionPoints[t]) +
          (if HmmActive() && recognition && SlotOf(name, tags) == Some(t)
           then [Point(old(dataPointNumber), Features(normalize(position), rotation))]
           else [])
    {
      if recording || recognizing {
        lineNumber := lineNumber + 1;
        transitionX := position.x - startX;
        transitionY := position.y;
        transitionZ := position.z - startZ;
        // With `record` selected the logger saves the raw sample here.
        if recognition {
          var point := Point(dataPointNumber, Features(normalize(position), rotation));
          dataPointNumber := dataPointNumber + 1;
          var slot := SlotOf(name, tags);
          if slot.Some? {
            recognitionPoints[slot.value] := recognitionPoints[slot.value] + [point];
          }
        }
      }
    }

    /** Verify the session against the single trained pattern `m`: false when recognition is
        not selected; otherwise true iff every tracker that buffered points and whose cluster
        file loaded has a likelihood strictly above its threshold. Nothing changes. */
    method StopRecognition(m: TrainedPattern) returns (accepted: bool)
      requires Valid()
      ensures accepted <==> VerifyVerdict(recognition, recognitionPoints[..], m)
      ensures accepted <==> (recognition &&
        forall ii :: 0 <= ii < NumTrackers && |recognitionPoints[ii]| > 0 && m.loads(ii) ==>
          m.Likelihood(ii, recognitionPoints[ii]) > m.threshold(ii))
    {
      if !recognition {
        return false;
      }
      var trackersPresent := new bool[NumTrackers];
      for ii := 0 to NumTrackers
        invariant forall j :: 0 <= j < ii ==> trackersPresent[j] == m.loads(j)
      {
        // A missing cluster file is logged as an error.
        trackersPresent[ii] := m.loads(ii);
      }
      var recognised: seq<bool> := seq(NumTrackers, _ => true);
      for ii := 0 to NumTrackers
        invariant |recognised| == NumTrackers
        invariant forall j :: 0 <= j < ii ==>
          recognised[j] == (Scorable(recognitionPoints[j], m.loads(j)) ==> m.Passes(j, recognitionPoints[j]))
        invariant forall j :: ii <= j < NumTrackers ==> recognised[j]
      {
        var points := recognitionPoints[ii];
        if |points| > 0 && trackersPresent[ii] {
          var clustered := m.symbols(ii, points);
          // The likelihood and threshold are logged, and the logger records the likelihood.
          recognised := recognised[ii := m.likelihood(ii, clustered) > m.threshold(ii)];
        }
      }
      // The logger closes the analysis here.
      accepted := AllOf(recognised);
    }

    /** Identify the session among the three candidate patterns: votes, strict-majority
        winner and the re-check against the winner's vectors, as IdentifyOutcome describes
        it. Nothing changes. */
    method StopRecognitionAndIdentify(c: Candidates) returns (outcome: Identification)
      requires Valid()
      ensures outcome == IdentifyOutcome(recognition, recognitionPoints[..], c)
    {
      if !recognition {
        return Verdict(false);
      }
      ghost var bufs := recognitionPoints[..];
      var trackersPresent := new bool[NumTrackers];
      for ii := 0 to NumTrackers
        invariant forall j :: 0 <= j < ii ==> trackersPresent[j] == c.AllLoad(j)
      {
        // A missing cluster file is logged as an error.
        trackersPresent[ii] := c.m0.loads(ii) && c.m1.loads(ii) && c.m2.loads(ii);
      }
      var identifyProbability: seq<nat> := [];
      var prob0: seq<real>, prob1: seq<real>, prob2: seq<real> := [], [], [];
      var std0: seq<real>, std1: seq<real>, std2: seq<real> := [], [], [];
      for ii := 0 to NumTrackers
        invariant identifyProbability == Votes(bufs, c, ii)
        invariant prob0 == Likelihoods(bufs, c, 0, ii) && std0 == Thresholds(bufs, c, 0, ii)
        invariant prob1 == Likelihoods(bufs, c, 1, ii) && std1 == Thresholds(bufs, c, 1, ii)
        invariant prob2 == Likelihoods(bufs, c, 2, ii) && std2 == Thresholds(bufs, c, 2, ii)
      {
        var points := recognitionPoints[ii];
        if |points| > 0 && trackersPresent[ii] {
          var p0 := c.m0.likelihood(ii, c.m0.symbols(ii, points));
          var p1 := c.m1.likelihood(ii, c.m1.symbols(ii, points));
          var p2 := c.m2.likelihood(ii, c.m2.symbols(ii, points));
          prob0, prob1, prob2 := prob0 + [p0], prob1 + [p1], prob2 + [p2];
          std0, std1, std2 := std0 + [c.m0.threshold(ii)], std1 + [c.m1.threshold(ii)], std2 + [c.m2.threshold(ii)];
          // The three likelihoods and thresholds are logged.
          identifyProbability := identifyProbability + [FirstMax([p0, p1, p2])];
        }
      }
      outcome := DecideIdentity(identifyProbability, prob0, std0, prob1, std1);
    }
  }

  /** The decision after scoring: count the votes, re-check against the winner's vectors
      (pattern 1's for a pattern-2 win) and take the all-of of the flags. */
  method DecideIdentity(votes: seq<nat>, prob0: seq<real>, std0: seq<real>, prob1: seq<real>,
                        std1: seq<real>) returns (outcome: Identification)
    ensures outcome == Decide(votes, prob0, std0, prob1, std1)
  {
    var n0, n1, n2 := Count(votes, 0), Count(votes, 1), Count(votes, 2);
    // The logger closes the analysis and the three counts are logged; each branch below
    // logs the pose it identifies, and the final else logs that none was identified.
    assert Winner(votes) == Majority(n0, n1, n2);
    var recognised: seq<bool> := seq(NumTrackers, _ => true);
    if n0 > n1 && n0 > n2 {
      var flags, inRange := Recheck(prob0, std0);
      if !inRange {
        return OutOfRange;
      }
      recognised := flags;
    }
    if n1 > n0 && n1 > n2 {
      var flags, inRange := Recheck(prob1, std1);
      if !inRange {
        return OutOfRange;
      }
      recognised := flags;
    } else if n2 > n0 && n2 > n1 {
      // A pattern-2 win is re-checked against pattern 1's vectors.
      var flags, inRange := Recheck(prob1, std1);
      if !inRange {
        return OutOfRange;
      }
      recognised := flags;
    }
    outcome := Verdict(AllOf(recognised));
  }

  /** The re-check loop of identification: for each slot ii, whether the likelihood at ii
      exceeds the threshold at ii; `inRange` is false when a vector is too short, where the
      bounds-checked access throws. */
  method Recheck(probs: seq<real>, stds: seq<real>) returns (flags: seq<bool>, inRange: bool)
    ensures inRange <==> |probs| >= NumTrackers && |stds| >= NumTrackers
    ensures inRange ==> |flags| == NumTrackers
    ensures inRange ==> forall ii :: 0 <= ii < NumTrackers ==> flags[ii] == (probs[ii] > stds[ii])
    ensures inRange ==> (AllOf(flags) <==> AllAbove(probs, stds))
  {
    flags := [];
    for ii := 0 to NumTrackers
      invariant |flags| == ii && ii <= |probs| && ii <= |stds|
      invariant forall j :: 0 <= j < ii ==> flags[j] == (probs[j] > stds[j])
    {
      if ii >= |probs| || ii >= |stds| {
        return flags, false;
      }
      flags := flags + [probs[ii] > stds[ii]];
    }
    inRange := true;
    if !AllOf(flags) {
      var i :| 0 <= i < |flags| && !flags[i];
      assert !(probs[i] > stds[i]);
    }
  }
}
