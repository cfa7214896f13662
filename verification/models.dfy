/** The trained collaborators the engine loads at the end of a session. Their internals
    (centroid fitting, normalisation, the hidden Markov model) are outside this model;
    only their call contracts appear, as functions supplied by the caller. */
module Models {
  import opened Pose

  /** One trained movement pattern, for each tracker slot:
      - `loads(t)`: the cluster file of tracker t could be read (otherwise loading throws);
      - `symbols(t, points)`: the cluster index of every point after normalising against the
        clusters' average points;
      - `likelihood(t, symbols)`: the sequence model's probability of the symbol sequence;
      - `threshold(t)`: the sequence model's decision threshold. */
  datatype TrainedPattern = TrainedPattern(
    loads: nat -> bool,
    symbols: (nat, seq<Point>) -> seq<int>,
    likelihood: (nat, seq<int>) -> real,
    threshold: nat -> real)
  {
    /** The likelihood of a tracker's buffered points under this pattern. */
    function Likelihood(tracker: nat, buffer: seq<Point>): real
    {
      likelihood(tracker, symbols(tracker, buffer))
    }

    /** A tracker passes when its likelihood is strictly above the threshold. */
    predicate Passes(tracker: nat, buffer: seq<Point>)
    {
      Likelihood(tracker, buffer) > threshold(tracker)
    }
  }

  /** The three candidate patterns of identification (directories Movement0, 1 and 2). */
  datatype Candidates = Candidates(m0: TrainedPattern, m1: TrainedPattern, m2: TrainedPattern)
  {
    function Pattern(k: nat): TrainedPattern
      requires k < 3
    {
      if k == 0 then m0 else if k == 1 then m1 else m2
    }

    /** A tracker is present only when the cluster files of all three patterns load. */
    predicate AllLoad(tracker: nat)
    {
      m0.loads(tracker) && m1.loads(tracker) && m2.loads(tracker)
    }
  }
}
