/**
The tally of src/decision.rs, vote by vote: who is valid, what wins, who disagrees.
*/
module TallyMeaning {
  import opened Common
  import opened Selections
  import opened TextMeaning
  import opened DecisionTally

  /** What the votes ask for, one by one. */
  function Requests(votes: seq<DirectionVote>): (r: seq<(DirectionDecision, string)>)
    ensures |r| == |votes| && forall i :: 0 <= i < |r| ==> r[i] == (votes[i].decision, votes[i].value)
  {
    seq(|votes|, i requires 0 <= i < |votes| => (votes[i].decision, votes[i].value))
  }

  /** How many of the votes ask for what `v` asks for. */
  ghost function Backing(votes: seq<DirectionVote>, v: DirectionVote): nat {
    multiset(Requests(votes))[(v.decision, v.value)]
  }

  lemma {:induction false} BackingIsCount(votes: seq<DirectionVote>, v: DirectionVote)
    requires !v.decision.NeedsHuman?
    ensures VotesFor(votes, VoteKey(v)) == Backing(votes, v)
  {
    if votes != [] {
      var last := votes[|votes| - 1];
      BackingIsCount(votes[..|votes| - 1], v);
      KeyTellsVote(last, v);
      assert Requests(votes) == Requests(votes[..|votes| - 1]) + [(last.decision, last.value)];
    }
  }

  lemma PatternsAre(value: string)
    ensures value in PATTERNS <==>
      || value == "linear" || value == "fan-out" || value == "adversarial" || value == "tournament" || value == "loop"
  {
    if value in PATTERNS {
      var i :| 0 <= i < 5 && PATTERNS[i] == value;
    } else {
      assert PATTERNS[0] in PATTERNS && PATTERNS[1] in PATTERNS && PATTERNS[2] in PATTERNS;
      assert PATTERNS[3] in PATTERNS && PATTERNS[4] in PATTERNS;
    }
  }

  lemma ValidMeans(vote: DirectionVote, ids: Option<set<string>>)
    ensures IsValidVote(vote, ids) <==>
      && (vote.decision.PickTask? && ids.Some? ==> vote.value in ids.value)
      && (vote.decision.PickPattern? ==>
            || vote.value == "linear" || vote.value == "fan-out" || vote.value == "adversarial"
            || vote.value == "tournament" || vote.value == "loop")
  {
    PatternsAre(vote.value);
  }

  /** A vote counts if it is for a known task, with no list of tasks for any, or for one of
      the five patterns, or for a human; the others are set aside, each part in input order. */
  lemma ValidVotesAre(votes: seq<DirectionVote>, ids: Option<set<string>>, i: nat)
      returns (valid: seq<nat>, invalid: seq<nat>)
    ensures IsAt(TallyOf(votes, ids).votes, votes, valid) && IsAt(TallyOf(votes, ids).invalidVotes, votes, invalid)
    ensures i in valid <==>
      && i < |votes|
      && (votes[i].decision.PickTask? && ids.Some? ==> votes[i].value in ids.value)
      && (votes[i].decision.PickPattern? ==>
            || votes[i].value == "linear" || votes[i].value == "fan-out" || votes[i].value == "adversarial"
            || votes[i].value == "tournament" || votes[i].value == "loop")
    ensures i in invalid <==> i < |votes| && i !in valid
  {
    valid, invalid := VotesPartitionInOrder(votes, ids);
    if i < |votes| {
      ValidMeans(votes[i], ids);
    }
  }

  /** The pick is of what most valid votes ask for; between two with as many votes the one
      whose key comes first in the dictionary. */
  lemma WinnerIsMostBacked(votes: seq<DirectionVote>, ids: Option<set<string>>) returns (winner: DirectionVote)
    requires TallyOf(votes, ids).majorityPick.Some?
    ensures var t := TallyOf(votes, ids);
      && winner in t.votes && !winner.decision.NeedsHuman?
      && t.majorityPick.value == (if winner.decision.PickTask? then "pick_task:" else "pick_pattern:") + winner.value
      && t.majorityCount == Backing(t.votes, winner)
      && forall v :: v in t.votes && !v.decision.NeedsHuman? ==>
           || Backing(t.votes, v) < t.majorityCount
           || (v.decision == winner.decision && v.value == winner.value)
           || (Backing(t.votes, v) == t.majorityCount
               && GoesBefore(t.majorityPick.value,
                             (if v.decision.PickTask? then "pick_task:" else "pick_pattern:") + v.value))
  {
    var t := TallyOf(votes, ids);
    PickIsLeastOfTheMostVoted(votes, ids, "");
    var backers := Filter(t.votes, ForKey(t.majorityPick.value));
    winner := backers[0];
    assert winner in backers;
    KeyOfPick(winner);
    BackingIsCount(t.votes, winner);
    forall v | v in t.votes && !v.decision.NeedsHuman?
      ensures
        || Backing(t.votes, v) < t.majorityCount
        || (v.decision == winner.decision && v.value == winner.value)
        || (Backing(t.votes, v) == t.majorityCount
            && GoesBefore(t.majorityPick.value,
                          (if v.decision.PickTask? then "pick_task:" else "pick_pattern:") + v.value))
    {
      OthersComeAfter(votes, ids, winner, v);
    }
  }

  lemma OthersComeAfter(votes: seq<DirectionVote>, ids: Option<set<string>>, winner: DirectionVote, v: DirectionVote)
    requires TallyOf(votes, ids).majorityPick == Some(VoteKey(winner)) && !winner.decision.NeedsHuman?
    requires v in TallyOf(votes, ids).votes && !v.decision.NeedsHuman?
    ensures var t := TallyOf(votes, ids);
      || Backing(t.votes, v) < t.majorityCount
      || (v.decision == winner.decision && v.value == winner.value)
      || (Backing(t.votes, v) == t.majorityCount && GoesBefore(VoteKey(winner), VoteKey(v)))
  {
    var t := TallyOf(votes, ids);
    KeyTellsVote(v, winner);
    KeyOfPick(v);
    PickIsLeastOfTheMostVoted(votes, ids, VoteKey(v));
    BackingIsCount(t.votes, v);
    BeforeMeans(VoteKey(winner), VoteKey(v));
    assert v in Filter(t.votes, ForKey(VoteKey(v)));
  }

  /** Two votes are a majority; information is needed without one or with a valid vote for a
      human. Without a vote for a task or a pattern there is no pick, and the count is 0. */
  lemma CountsMean(votes: seq<DirectionVote>, ids: Option<set<string>>) returns (human: seq<nat>)
    ensures var t := TallyOf(votes, ids);
      && (t.majorityPick.None? <==> forall v :: v in t.votes ==> v.decision.NeedsHuman?)
      && (t.majorityPick.None? ==> t.majorityCount == 0)
      && t.totalVoters == |t.votes| && (t.supermajorityMet <==> t.majorityCount >= 2)
      && (t.needsInfo <==> t.majorityCount < 2 || t.needsHumanVotes >= 1)
    ensures var t := TallyOf(votes, ids);
      && t.needsHumanVotes == |human| && Increasing(human)
      && forall i: nat :: i in human <==> i < |t.votes| && t.votes[i].decision.NeedsHuman?
  {
    PickIsLeastOfTheMostVoted(votes, ids, "");
    human := FilterIsAt(TallyOf(votes, ids).votes, ForHuman());
  }

  /** The minority are the valid votes that do not ask for the pick, in order. */
  lemma MinorityIs(votes: seq<DirectionVote>, ids: Option<set<string>>) returns (at: seq<nat>)
    ensures var t := TallyOf(votes, ids);
      && IsAt(t.minority, t.votes, at)
      && forall i: nat :: i in at <==>
           && i < |t.votes|
           && (t.votes[i].decision.NeedsHuman? || t.majorityPick !=
                 Some((if t.votes[i].decision.PickTask? then "pick_task:" else "pick_pattern:") + t.votes[i].value))
  {
    var t := TallyOf(votes, ids);
    PickIsNoCallForHuman(votes, ids);
    at := FilterIsAt(t.votes, Against(t.majorityPick));
  }

  lemma PickIsNoCallForHuman(votes: seq<DirectionVote>, ids: Option<set<string>>)
    ensures TallyOf(votes, ids).majorityPick != Some("needs_human")
  {
    PickIsLeastOfTheMostVoted(votes, ids, "");
  }
}
