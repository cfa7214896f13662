/** What a recognition session decides, as functions of the six buffers and the trained
    models: the verify verdict (one pattern) and the identify outcome (three patterns). */
module Sessions {
  import opened Wrappers
  import opened Pose
  import opened Trackers
  import opened Models
  import opened Decision

  /** A tracker takes part in a verdict only when it buffered points and its models loaded. */
  predicate Scorable(buffer: seq<Point>, present: bool)
  {
    |buffer| > 0 && present
  }

  // ---------------------------------------------------------------- verify

  /** The verify verdict: recognition was on and every scorable tracker passes its threshold;
      trackers without points or without a model pass vacuously. */
  predicate VerifyVerdict(recognition: bool, bufs: seq<seq<Point>>, m: TrainedPattern)
    requires |bufs| == NumTrackers
  {
    recognition &&
    forall ii :: 0 <= ii < NumTrackers && Scorable(bufs[ii], m.loads(ii)) ==> m.Passes(ii, bufs[ii])
  }

  /** With recognition off, verification rejects. */
  lemma VerifyRejectsWhenOff(bufs: seq<seq<Point>>, m: TrainedPattern)
    requires |bufs| == NumTrackers
    ensures !VerifyVerdict(false, bufs, m)
  {
  }

  /** Buffers that are all empty are accepted, whatever the models say. */
  lemma VerifyAcceptsEmptySession(bufs: seq<seq<Point>>, m: TrainedPattern)
    requires |bufs| == NumTrackers
    requires forall ii :: 0 <= ii < NumTrackers ==> bufs[ii] == []
    ensures VerifyVerdict(true, bufs, m)
  {
  }

  /** A scorable tracker whose likelihood equals its threshold makes the session fail. */
  lemma VerifyRejectsAtThreshold(bufs: seq<seq<Point>>, m: TrainedPattern, ii: nat)
    requires |bufs| == NumTrackers && ii < NumTrackers
    requires Scorable(bufs[ii], m.loads(ii))
    requires m.Likelihood(ii, bufs[ii]) == m.threshold(ii)
    ensures !VerifyVerdict(true, bufs, m)
  {
  }

  /** Only scorable trackers matter: two patterns that agree on the scorable trackers'
      likelihoods and thresholds give the same verdict. */
  lemma VerifyIgnoresUnscorable(bufs: seq<seq<Point>>, m: TrainedPattern, m': TrainedPattern)
    requires |bufs| == NumTrackers
    requires forall ii :: 0 <= ii < NumTrackers ==> m.loads(ii) == m'.loads(ii)
    requires forall ii :: 0 <= ii < NumTrackers && Scorable(bufs[ii], m.loads(ii)) ==>
      m.Likelihood(ii, bufs[ii]) == m'.Likelihood(ii, bufs[ii]) && m.threshold(ii) == m'.threshold(ii)
    ensures VerifyVerdict(true, bufs, m) == VerifyVerdict(true, bufs, m')
  {
  }

  // ---------------------------------------------------------------- identify

  /** In identification a tracker is scored when it buffered points and all three
      patterns' cluster files loaded. */
  predicate Scored(bufs: seq<seq<Point>>, c: Candidates, ii: nat)
    requires ii < |bufs|
  {
    Scorable(bufs[ii], c.AllLoad(ii))
  }

  /** The three likelihoods of tracker ii, one per candidate pattern. */
  function Scores(bufs: seq<seq<Point>>, c: Candidates, ii: nat): (s: seq<real>)
    requires ii < |bufs|
    ensures |s| == NumPatterns
  {
    [c.m0.Likelihood(ii, bufs[ii]), c.m1.Likelihood(ii, bufs[ii]), c.m2.Likelihood(ii, bufs[ii])]
  }

  /** The scored trackers below n, in tracker order. */
  function ScoredTrackers(bufs: seq<seq<Point>>, c: Candidates, n: nat): seq<nat>
    requires n <= |bufs|
  {
    if n == 0 then []
    else ScoredTrackers(bufs, c, n - 1) + (if Scored(bufs, c, n - 1) then [n - 1] else [])
  }

  /** The votes cast by the trackers below n: one per scored tracker. */
  function Votes(bufs: seq<seq<Point>>, c: Candidates, n: nat): seq<nat>
    requires n <= |bufs|
  {
    if n == 0 then []
    else
      Votes(bufs, c, n - 1) +
      (if Scored(bufs, c, n - 1) then [FirstMax(Scores(bufs, c, n - 1))] else [])
  }

  /** Pattern k's likelihoods, one per scored tracker below n (the probabilityModel vectors). */
  function Likelihoods(bufs: seq<seq<Point>>, c: Candidates, k: nat, n: nat): seq<real>
    requires n <= |bufs| && k < NumPatterns
  {
    if n == 0 then []
    else
      Likelihoods(bufs, c, k, n - 1) +
      (if Scored(bufs, c, n - 1) then [c.Pattern(k).Likelihood(n - 1, bufs[n - 1])] else [])
  }

  /** Pattern k's thresholds, one per scored tracker below n (the probabilityStandardModel vectors). */
  function Thresholds(bufs: seq<seq<Point>>, c: Candidates, k: nat, n: nat): seq<real>
    requires n <= |bufs| && k < NumPatterns
  {
    if n == 0 then []
    else
      Thresholds(bufs, c, k, n - 1) +
      (if Scored(bufs, c, n - 1) then [c.Pattern(k).threshold(n - 1)] else [])
  }

  /** The result of identification: a verdict, or the out_of_range exception that escapes
      when a pattern wins while fewer than six trackers were scored. */
  datatype Identification = Verdict(accepted: bool) | OutOfRange

  /** The pattern whose vectors re-check a winner: pattern 0 for a pattern-0 win, pattern 1
      for a pattern-1 win and also for a pattern-2 win. */
  function RecheckedPattern(winner: nat): (k: nat)
    ensures k < NumPatterns
  {
    if winner == 0 then 0 else 1
  }

  /** The decision taken from the votes and the stored vectors: accept when no pattern wins;
      otherwise re-check every slot against the re-checked pattern's vectors, which throws
      when they hold fewer than six entries. */
  function Decide(votes: seq<nat>, probs0: seq<real>, stds0: seq<real>, probs1: seq<real>,
                  stds1: seq<real>): Identification
  {
    match Winner(votes)
    case None => Verdict(true)
    case Some(w) =>
      var probs := if RecheckedPattern(w) == 0 then probs0 else probs1;
      var stds := if RecheckedPattern(w) == 0 then stds0 else stds1;
      if |probs| < NumTrackers || |stds| < NumTrackers then OutOfRange
      else Verdict(AllAbove(probs, stds))
  }

  /** Every slot's stored likelihood is strictly above its stored threshold. */
  predicate AllAbove(probs: seq<real>, stds: seq<real>)
    requires |probs| >= NumTrackers && |stds| >= NumTrackers
  {
    forall ii :: 0 <= ii < NumTrackers ==> probs[ii] > stds[ii]
  }

  /** Every tracker passes pattern m's threshold. */
  predicate AllPass(bufs: seq<seq<Point>>, m: TrainedPattern)
    requires |bufs| == NumTrackers
  {
    forall ii :: 0 <= ii < NumTrackers ==> m.Passes(ii, bufs[ii])
  }

  /** The identify outcome of a session. */
  function IdentifyOutcome(recognition: bool, bufs: seq<seq<Point>>, c: Candidates): Identification
    requires |bufs| == NumTrackers
  {
    if !recognition then Verdict(false)
    else
      Decide(Votes(bufs, c, NumTrackers),
             Likelihoods(bufs, c, 0, NumTrackers), Thresholds(bufs, c, 0, NumTrackers),
             Likelihoods(bufs, c, 1, NumTrackers), Thresholds(bufs, c, 1, NumTrackers))
  }

  // ---------------------------------------------------------------- lemmas

  /** The scored trackers below n are listed once each, in increasing order. */
  lemma {:induction false} ScoredTrackersInOrder(bufs: seq<seq<Point>>, c: Candidates, n: nat)
    requires n <= |bufs|
    ensures |ScoredTrackers(bufs, c, n)| <= n
    ensures forall i, j :: 0 <= i < j < |ScoredTrackers(bufs, c, n)| ==>
      ScoredTrackers(bufs, c, n)[i] < ScoredTrackers(bufs, c, n)[j]
    ensures forall t: nat :: t in ScoredTrackers(bufs, c, n) <==> t < n && Scored(bufs, c, t)
  {
    if n > 0 {
      ScoredTrackersInOrder(bufs, c, n - 1);
      var before := ScoredTrackers(bufs, c, n - 1);
      forall i | 0 <= i < |before|
        ensures before[i] < n - 1
      {
        assert before[i] in before;
      }
    }
  }

  /** Exactly one vote per scored tracker, in tracker order: the j-th vote is the lowest
      index of the largest likelihood of the j-th scored tracker. */
  lemma {:induction false} VotesFollowTrackers(bufs: seq<seq<Point>>, c: Candidates, n: nat)
    requires n <= |bufs|
    ensures |Votes(bufs, c, n)| == |ScoredTrackers(bufs, c, n)|
    ensures forall j :: 0 <= j < |Votes(bufs, c, n)| ==>
      ScoredTrackers(bufs, c, n)[j] < |bufs| &&
      Votes(bufs, c, n)[j] == FirstMax(Scores(bufs, c, ScoredTrackers(bufs, c, n)[j]))
  {
    if n > 0 {
      VotesFollowTrackers(bufs, c, n - 1);
      ScoredTrackersInOrder(bufs, c, n - 1);
    }
  }

  /** Every vote names one of the three patterns. */
  lemma {:induction false} VotesArePatterns(bufs: seq<seq<Point>>, c: Candidates, n: nat)
    requires n <= |bufs|
    ensures forall j :: 0 <= j < |Votes(bufs, c, n)| ==> Votes(bufs, c, n)[j] < NumPatterns
  {
    if n > 0 {
      VotesArePatterns(bufs, c, n - 1);
    }
  }

  /** Pattern k's likelihood and threshold vectors hold one entry per scored tracker, in
      tracker order. */
  lemma {:induction false} ColumnsFollowTrackers(bufs: seq<seq<Point>>, c: Candidates, k: nat, n: nat)
    requires n <= |bufs| && k < NumPatterns
    ensures |Likelihoods(bufs, c, k, n)| == |ScoredTrackers(bufs, c, n)|
    ensures |Thresholds(bufs, c, k, n)| == |ScoredTrackers(bufs, c, n)|
    ensures forall j :: 0 <= j < |ScoredTrackers(bufs, c, n)| ==>
      ScoredTrackers(bufs, c, n)[j] < |bufs| &&
      Likelihoods(bufs, c, k, n)[j] ==
        c.Pattern(k).Likelihood(ScoredTrackers(bufs, c, n)[j], bufs[ScoredTrackers(bufs, c, n)[j]]) &&
      Thresholds(bufs, c, k, n)[j] == c.Pattern(k).threshold(ScoredTrackers(bufs, c, n)[j])
  {
    if n > 0 {
      ColumnsFollowTrackers(bufs, c, k, n - 1);
      ScoredTrackersInOrder(bufs, c, n - 1);
    }
  }

  /** All trackers below n are scored exactly when n of them are listed, and then the j-th
      listed tracker is tracker j. */
  lemma {:induction false} ScoredTrackersFull(bufs: seq<seq<Point>>, c: Candidates, n: nat)
    requires n <= |bufs|
    ensures |ScoredTrackers(bufs, c, n)| == n <==> forall t :: 0 <= t < n ==> Scored(bufs, c, t)
    ensures |ScoredTrackers(bufs, c, n)| == n ==> forall j :: 0 <= j < n ==> ScoredTrackers(bufs, c, n)[j] == j
  {
    if n > 0 {
      ScoredTrackersFull(bufs, c, n - 1);
      ScoredTrackersInOrder(bufs, c, n - 1);
    }
  }

  /** Trackers that are all unscored cast no vote. */
  lemma {:induction false} NoScoredNoVotes(bufs: seq<seq<Point>>, c: Candidates, n: nat)
    requires n <= |bufs|
    requires forall t :: 0 <= t < n ==> !Scored(bufs, c, t)
    ensures Votes(bufs, c, n) == []
  {
    if n > 0 {
      NoScoredNoVotes(bufs, c, n - 1);
    }
  }

  /** With recognition off, identification rejects. */
  lemma IdentifyRejectsWhenOff(bufs: seq<seq<Point>>, c: Candidates)
    requires |bufs| == NumTrackers
    ensures IdentifyOutcome(false, bufs, c) == Verdict(false)
  {
  }

  /** Without a strict majority the session is accepted: no re-check overrides the
      all-true flags. */
  lemma IdentifyAcceptsWithoutWinner(bufs: seq<seq<Point>>, c: Candidates)
    requires |bufs| == NumTrackers
    requires Winner(Votes(bufs, c, NumTrackers)) == None
    ensures IdentifyOutcome(true, bufs, c) == Verdict(true)
  {
  }

  /** A session in which no tracker is scored (all buffers empty, say) casts no vote and is
      accepted. */
  lemma IdentifyAcceptsWhenNothingScored(bufs: seq<seq<Point>>, c: Candidates)
    requires |bufs| == NumTrackers
    requires forall ii :: 0 <= ii < NumTrackers ==> !Scored(bufs, c, ii)
    ensures IdentifyOutcome(true, bufs, c) == Verdict(true)
  {
    NoScoredNoVotes(bufs, c, NumTrackers);
    assert Votes(bufs, c, NumTrackers) == [];
    NoVotesNoWinner();
  }

  /** The exception escapes exactly when a pattern wins while some tracker was not scored. */
  lemma IdentifyOutOfRange(recognition: bool, bufs: seq<seq<Point>>, c: Candidates)
    requires |bufs| == NumTrackers
    ensures IdentifyOutcome(recognition, bufs, c) == OutOfRange <==>
      recognition && Winner(Votes(bufs, c, NumTrackers)).Some? &&
      exists t :: 0 <= t < NumTrackers && !Scored(bufs, c, t)
  {
    var n := NumTrackers;
    ScoredTrackersFull(bufs, c, n);
    ScoredTrackersInOrder(bufs, c, n);
    match Winner(Votes(bufs, c, n))
    case None =>
    case Some(w) =>
      var k := RecheckedPattern(w);
      ColumnsFollowTrackers(bufs, c, k, n);
  }

  /** When all six trackers are scored and pattern w wins, the session is accepted iff every
      tracker passes the threshold of the re-checked pattern: pattern 0 for w = 0, pattern 1
      for w = 1 and for w = 2. */
  lemma IdentifyWinnerVerdict(bufs: seq<seq<Point>>, c: Candidates, w: nat)
    requires |bufs| == NumTrackers
    requires forall t :: 0 <= t < NumTrackers ==> Scored(bufs, c, t)
    requires Winner(Votes(bufs, c, NumTrackers)) == Some(w)
    ensures w < NumPatterns
    ensures IdentifyOutcome(true, bufs, c) == Verdict(AllPass(bufs, c.Pattern(RecheckedPattern(w))))
  {
    var k := RecheckedPattern(w);
    ScoredTrackersFull(bufs, c, NumTrackers);
    ColumnsFollowTrackers(bufs, c, k, NumTrackers);
    var probs, stds := Likelihoods(bufs, c, k, NumTrackers), Thresholds(bufs, c, k, NumTrackers);
    assert IdentifyOutcome(true, bufs, c) == Verdict(AllAbove(probs, stds));
    forall ii | 0 <= ii < NumTrackers
      ensures probs[ii] > stds[ii] <==> c.Pattern(k).Passes(ii, bufs[ii])
    {
      assert ScoredTrackers(bufs, c, NumTrackers)[ii] == ii;
    }
  }

  /** A tracker whose likelihood under the re-checked pattern equals that pattern's threshold
      makes an identified session fail. */
  lemma IdentifyRejectsAtThreshold(bufs: seq<seq<Point>>, c: Candidates, w: nat, ii: nat)
    requires |bufs| == NumTrackers && ii < NumTrackers
    requires forall t :: 0 <= t < NumTrackers ==> Scored(bufs, c, t)
    requires Winner(Votes(bufs, c, NumTrackers)) == Some(w)
    requires w < NumPatterns
    requires c.Pattern(RecheckedPattern(w)).Likelihood(ii, bufs[ii]) == c.Pattern(RecheckedPattern(w)).threshold(ii)
    ensures IdentifyOutcome(true, bufs, c) == Verdict(false)
  {
    IdentifyWinnerVerdict(bufs, c, w);
  }

  /** A full session whose every tracker likes pattern 0 at least as much as the others and
      passes pattern 0's thresholds is accepted as pattern 0. */
  lemma IdentifyUnanimousPattern0(bufs: seq<seq<Point>>, c: Candidates)
    requires |bufs| == NumTrackers
    requires forall t :: 0 <= t < NumTrackers ==> Scored(bufs, c, t)
    requires forall t :: 0 <= t < NumTrackers ==>
      c.m0.Likelihood(t, bufs[t]) >= c.m1.Likelihood(t, bufs[t]) &&
      c.m0.Likelihood(t, bufs[t]) >= c.m2.Likelihood(t, bufs[t])
    requires forall t :: 0 <= t < NumTrackers ==> c.m0.Passes(t, bufs[t])
    ensures Winner(Votes(bufs, c, NumTrackers)) == Some(0)
    ensures IdentifyOutcome(true, bufs, c) == Verdict(true)
  {
    var votes := Votes(bufs, c, NumTrackers);
    ScoredTrackersFull(bufs, c, NumTrackers);
    VotesFollowTrackers(bufs, c, NumTrackers);
    forall j | 0 <= j < |votes|
      ensures votes[j] == 0
    {
      FirstMaxIsLowestMax(Scores(bufs, c, j), 0);
    }
    UnanimousWinner(votes, 0);
    IdentifyWinnerVerdict(bufs, c, 0);
  }

  /** A pattern-2 win is re-checked against pattern 1: with all trackers scored, a unanimous
      vote for pattern 2 is rejected as soon as one tracker fails pattern 1's threshold, even
      when every tracker passes pattern 2's. */
  lemma IdentifyPattern2UsesPattern1(bufs: seq<seq<Point>>, c: Candidates, ii: nat)
    requires |bufs| == NumTrackers && ii < NumTrackers
    requires forall t :: 0 <= t < NumTrackers ==> Scored(bufs, c, t)
    requires forall t :: 0 <= t < NumTrackers ==>
      c.m2.Likelihood(t, bufs[t]) > c.m0.Likelihood(t, bufs[t]) &&
      c.m2.Likelihood(t, bufs[t]) > c.m1.Likelihood(t, bufs[t])
    requires !c.m1.Passes(ii, bufs[ii])
    ensures Winner(Votes(bufs, c, NumTrackers)) == Some(2)
    ensures IdentifyOutcome(true, bufs, c) == Verdict(false)
  {
    var votes := Votes(bufs, c, NumTrackers);
    ScoredTrackersFull(bufs, c, NumTrackers);
    VotesFollowTrackers(bufs, c, NumTrackers);
    forall j | 0 <= j < |votes|
      ensures votes[j] == 2
    {
      FirstMaxIsLowestMax(Scores(bufs, c, j), 2);
    }
    UnanimousWinner(votes, 2);
    IdentifyWinnerVerdict(bufs, c, 2);
  }
}
