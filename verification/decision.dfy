/** The pure steps of the session verdict: argmax over pattern likelihoods, vote counting,
    the strict-majority choice of a pattern and the final all-of. */
module Decision {
  import opened Wrappers

  const NumPatterns: nat := 3

  /** The index std::max_element returns: scanning left to right, the candidate moves only
      to a strictly larger element, so the first maximum wins. */
  function FirstMax(s: seq<real>): (r: nat)
    requires |s| > 0
    ensures r < |s|
    ensures forall j :: 0 <= j < |s| ==> s[j] <= s[r]
    ensures forall j :: 0 <= j < r ==> s[j] < s[r]
    decreases |s|
  {
    if |s| == 1 then 0
    else
      var r := FirstMax(s[..|s| - 1]);
      if s[r] < s[|s| - 1] then |s| - 1 else r
  }

  /** Any index holding a maximum with only smaller elements before it is FirstMax. */
  lemma FirstMaxIsLowestMax(s: seq<real>, k: nat)
    requires k < |s|
    requires forall j :: 0 <= j < |s| ==> s[j] <= s[k]
    requires forall j :: 0 <= j < k ==> s[j] < s[k]
    ensures FirstMax(s) == k
  {
  }

  /** The number of votes for pattern k, as std::count computes it. */
  function Count(votes: seq<nat>, k: nat): (n: nat)
    ensures n <= |votes|
  {
    if |votes| == 0 then 0
    else Count(votes[..|votes| - 1], k) + (if votes[|votes| - 1] == k then 1 else 0)
  }

  /** The count is the number of occurrences of k among the votes. */
  lemma {:induction false} CountIsMultiplicity(votes: seq<nat>, k: nat)
    ensures Count(votes, k) == multiset(votes)[k]
  {
    if |votes| > 0 {
      var front := votes[..|votes| - 1];
      CountIsMultiplicity(front, k);
      assert votes == front + [votes[|votes| - 1]];
    }
  }

  /** A pattern's count is positive exactly when some vote names it. */
  lemma {:induction false} CountPositiveIffVoted(votes: seq<nat>, k: nat)
    ensures Count(votes, k) > 0 <==> exists i :: 0 <= i < |votes| && votes[i] == k
  {
    if |votes| > 0 {
      var front := votes[..|votes| - 1];
      CountPositiveIffVoted(front, k);
      if Count(front, k) > 0 {
        var i :| 0 <= i < |front| && front[i] == k;
        assert votes[i] == k;
      }
      if exists i :: 0 <= i < |votes| && votes[i] == k {
        var i :| 0 <= i < |votes| && votes[i] == k;
        if i < |front| {
          assert front[i] == k;
        }
      }
    }
  }

  lemma {:induction false} CountUnanimous(votes: seq<nat>, k: nat, j: nat)
    requires forall i :: 0 <= i < |votes| ==> votes[i] == k
    ensures Count(votes, k) == |votes|
    ensures j != k ==> Count(votes, j) == 0
  {
    if |votes| > 0 {
      CountUnanimous(votes[..|votes| - 1], k, j);
    }
  }

  /** Votes for patterns 0, 1 and 2 add up to the number of votes cast. */
  lemma {:induction false} CountsPartitionVotes(votes: seq<nat>)
    requires forall i :: 0 <= i < |votes| ==> votes[i] < NumPatterns
    ensures Count(votes, 0) + Count(votes, 1) + Count(votes, 2) == |votes|
  {
    if |votes| > 0 {
      CountsPartitionVotes(votes[..|votes| - 1]);
    }
  }

  /** The identified pattern from the three vote counts: pattern 0 if it out-votes both
      others, else pattern 1 if it out-votes both others, else pattern 2 likewise, else none.
      Strict majorities exclude each other, so the order of the tests favours no pattern. */
  function Majority(n0: nat, n1: nat, n2: nat): (r: Option<nat>)
    ensures r.Some? ==> r.value < NumPatterns
    ensures r == Some(0) <==> n0 > n1 && n0 > n2
    ensures r == Some(1) <==> n1 > n0 && n1 > n2
    ensures r == Some(2) <==> n2 > n0 && n2 > n1
  {
    if n0 > n1 && n0 > n2 then Some(0)
    else if n1 > n0 && n1 > n2 then Some(1)
    else if n2 > n0 && n2 > n1 then Some(2)
    else None
  }

  /** The identified pattern of a list of votes. */
  function Winner(votes: seq<nat>): Option<nat>
  {
    Majority(Count(votes, 0), Count(votes, 1), Count(votes, 2))
  }

  /** Pattern k is chosen exactly when its vote count strictly exceeds each of the other
      two patterns' counts. */
  lemma WinnerIsStrictMajority(votes: seq<nat>, k: nat)
    ensures Winner(votes) == Some(k) <==>
      k < NumPatterns &&
      Count(votes, k) > Count(votes, (k + 1) % NumPatterns) &&
      Count(votes, k) > Count(votes, (k + 2) % NumPatterns)
  {
  }

  /** With no vote cast, no pattern is identified. */
  lemma NoVotesNoWinner()
    ensures Winner([]) == None
  {
  }

  /** A unanimous, non-empty vote selects its pattern. */
  lemma UnanimousWinner(votes: seq<nat>, k: nat)
    requires |votes| > 0 && k < NumPatterns
    requires forall i :: 0 <= i < |votes| ==> votes[i] == k
    ensures Winner(votes) == Some(k)
  {
    CountUnanimous(votes, k, (k + 1) % 3);
    CountUnanimous(votes, k, (k + 2) % 3);
  }

  /** Appending one vote adds one to its pattern's count and nothing to the others. */
  lemma CountSnoc(votes: seq<nat>, x: nat, extended: seq<nat>)
    requires extended == votes + [x]
    ensures Count(extended, 0) == Count(votes, 0) + (if x == 0 then 1 else 0)
    ensures Count(extended, 1) == Count(votes, 1) + (if x == 1 then 1 else 0)
    ensures Count(extended, 2) == Count(votes, 2) + (if x == 2 then 1 else 0)
  {
  }

  /** Two votes each for the three patterns identify none of them. */
  lemma ThreeWayTieNoWinner(votes: seq<nat>)
    requires votes == [0, 0, 1, 1, 2, 2]
    ensures Winner(votes) == None
  {
    var v1 := [] + [0];
    var v2 := v1 + [0];
    var v3 := v2 + [1];
    var v4 := v3 + [1];
    var v5 := v4 + [2];
    CountSnoc([], 0, v1);
    CountSnoc(v1, 0, v2);
    CountSnoc(v2, 1, v3);
    CountSnoc(v3, 1, v4);
    CountSnoc(v4, 2, v5);
    CountSnoc(v5, 2, votes);
  }

  /** Three votes for pattern 0 against two and one select pattern 0. */
  lemma PluralityWinner(votes: seq<nat>)
    requires votes == [0, 0, 0, 1, 1, 2]
    ensures Winner(votes) == Some(0)
  {
    var v1 := [] + [0];
    var v2 := v1 + [0];
    var v3 := v2 + [0];
    var v4 := v3 + [1];
    var v5 := v4 + [1];
    CountSnoc([], 0, v1);
    CountSnoc(v1, 0, v2);
    CountSnoc(v2, 0, v3);
    CountSnoc(v3, 1, v4);
    CountSnoc(v4, 1, v5);
    CountSnoc(v5, 2, votes);
  }

  /** std::all_of over a vector of flags. */
  function AllOf(flags: seq<bool>): (r: bool)
    ensures r <==> forall i :: 0 <= i < |flags| ==> flags[i]
  {
    |flags| == 0 || (AllOf(flags[..|flags| - 1]) && flags[|flags| - 1])
  }
}
