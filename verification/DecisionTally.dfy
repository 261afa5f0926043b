/**
The tally of src/decision.rs.
*/
module DecisionTally {
  import opened Common
  import opened Selections
  import opened Text

  // It says which direction votes are valid, which pick has the most of them, and who
  // disagrees.

  datatype DirectionDecision = PickTask | PickPattern | NeedsHuman

  datatype DirectionVote = DirectionVote(decision: DirectionDecision, value: string, reasoning: string, source: string)

  datatype Tally = Tally(
    supermajorityMet: bool,
    majorityPick: Option<string>,
    majorityCount: nat,
    totalVoters: nat,
    votes: seq<DirectionVote>,
    minority: seq<DirectionVote>,
    needsHumanVotes: nat,
    needsInfo: bool,
    invalidVotes: seq<DirectionVote>)

  const PATTERNS: seq<string> := ["linear", "fan-out", "adversarial", "tournament", "loop"]

  /** Without a list of task ids any task may be voted for. */
  predicate IsValidVote(vote: DirectionVote, ids: Option<set<string>>) {
    match vote.decision
    case PickTask => ids.None? || vote.value in ids.value
    case PickPattern => vote.value in PATTERNS
    case NeedsHuman => true
  }

  function VoteKey(vote: DirectionVote): string {
    match vote.decision
    case PickTask => "pick_task:" + vote.value
    case PickPattern => "pick_pattern:" + vote.value
    case NeedsHuman => "needs_human"
  }

  /** Votes share a key exactly when they ask for the same thing. */
  lemma KeyTellsVote(a: DirectionVote, b: DirectionVote)
    ensures VoteKey(a) == VoteKey(b) <==> a.decision == b.decision && (a.decision.NeedsHuman? || a.value == b.value)
  {
    if a.decision == b.decision && !a.decision.NeedsHuman? {
      var n := if a.decision.PickTask? then 10 else 13;
      assert VoteKey(a)[n..] == a.value && VoteKey(b)[n..] == b.value;
    } else if a.decision != b.decision {
      var n := if a.decision.NeedsHuman? || b.decision.NeedsHuman? then 0 else 5;
      assert VoteKey(a)[n] != VoteKey(b)[n];
    }
  }

  // ---------- filtering ----------

  function Filter<T(!new)>(xs: seq<T>, keep: T -> bool): (r: seq<T>)
    ensures |r| <= |xs|
    ensures forall x :: x in r <==> x in xs && keep(x)
  {
    if xs == [] then []
    else
      var last := xs[|xs| - 1];
      Filter(xs[..|xs| - 1], keep) + if keep(last) then [last] else []
  }

  function Valid(ids: Option<set<string>>): DirectionVote -> bool {
    vote => IsValidVote(vote, ids)
  }

  function Invalid(ids: Option<set<string>>): DirectionVote -> bool {
    vote => !IsValidVote(vote, ids)
  }

  function ForHuman(): DirectionVote -> bool {
    (vote: DirectionVote) => vote.decision.NeedsHuman?
  }

  function ForKey(key: string): DirectionVote -> bool {
    vote => VoteKey(vote) == key
  }

  function Against(pick: Option<string>): DirectionVote -> bool {
    vote => Some(VoteKey(vote)) != pick
  }

  lemma {:induction false} FilterCounts<T(!new)>(xs: seq<T>, keep: T -> bool, x: T)
    ensures multiset(Filter(xs, keep))[x] == if keep(x) then multiset(xs)[x] else 0
  {
    if xs != [] {
      FilterCounts(xs[..|xs| - 1], keep, x);
      assert xs == xs[..|xs| - 1] + [xs[|xs| - 1]];
    }
  }

  lemma FilterIgnoresOrder<T(!new)>(xs: seq<T>, ys: seq<T>, keep: T -> bool)
    requires multiset(xs) == multiset(ys)
    ensures multiset(Filter(xs, keep)) == multiset(Filter(ys, keep))
    ensures |Filter(xs, keep)| == |Filter(ys, keep)|
  {
    forall x: T
      ensures multiset(Filter(xs, keep))[x] == multiset(Filter(ys, keep))[x]
    {
      FilterCounts(xs, keep, x);
      FilterCounts(ys, keep, x);
    }
    assert multiset(Filter(xs, keep)) == multiset(Filter(ys, keep));
    assert |Filter(xs, keep)| == |multiset(Filter(xs, keep))| == |multiset(Filter(ys, keep))| == |Filter(ys, keep)|;
  }

  lemma {:induction false} FilterIsAt<T(!new)>(xs: seq<T>, keep: T -> bool) returns (at: seq<nat>)
    ensures IsAt(Filter(xs, keep), xs, at) && AreWhere(at, xs, keep)
  {
    at := [];
    if xs != [] {
      var n := |xs| - 1;
      at := FilterIsAt(xs[..n], keep);
      OneMoreAt(Filter(xs[..n], keep), xs[..n], at, keep, xs[n]);
      assert xs == xs[..n] + [xs[n]];
      if keep(xs[n]) {
        at := at + [n];
      }
    }
  }

  lemma {:induction false} FiltersAddUp<T(!new)>(xs: seq<T>, keep: T -> bool, drop: T -> bool)
    requires forall x :: keep(x) != drop(x)
    ensures |Filter(xs, keep)| + |Filter(xs, drop)| == |xs|
  {
    if xs != [] {
      FiltersAddUp(xs[..|xs| - 1], keep, drop);
    }
  }

  // ---------- the pick ----------

  /** The keys of the votes for a pick, in order. */
  function PickKeys(votes: seq<DirectionVote>): seq<string> {
    if votes == [] then []
    else
      var last := votes[|votes| - 1];
      PickKeys(votes[..|votes| - 1]) + if last.decision.NeedsHuman? then [] else [VoteKey(last)]
  }

  /** More votes win; with as many votes, the smaller key. */
  predicate Beats(keys: multiset<string>, a: string, b: string) {
    keys[a] > keys[b] || (keys[a] == keys[b] && Before(a, b))
  }

  ghost predicate IsBest(keys: multiset<string>, among: set<string>, k: string) {
    k in among && forall j :: j in among && j != k ==> Beats(keys, k, j)
  }

  ghost function KeySet(keys: multiset<string>): set<string> {
    set k | k in keys
  }

  ghost function Pick(keys: multiset<string>): Option<string> {
    if k :| IsBest(keys, KeySet(keys), k) then Some(k) else None
  }

  lemma OneBest(keys: multiset<string>, among: set<string>, k: string, j: string)
    requires IsBest(keys, among, k) && IsBest(keys, among, j)
    ensures k == j
  {
    if k != j {
      BeforeIsTotal(k, j);
    }
  }

  lemma BestOfOneMore(keys: multiset<string>, among: set<string>, best: string, k: string)
    requires IsBest(keys, among, best) && k !in among
    ensures IsBest(keys, among + {k}, if Beats(keys, best, k) then best else k)
  {
    BeforeIsTotal(best, k);
    if !Beats(keys, best, k) {
      forall j | j in among
        ensures Beats(keys, k, j)
      {
        if j != best && keys[j] == keys[k] {
          BeforeIsTransitive(k, best, j);
        }
      }
    }
  }

  lemma {:induction false} SomeBest(keys: multiset<string>, among: set<string>)
    requires among != {}
    ensures exists k :: IsBest(keys, among, k)
    decreases among
  {
    var k :| k in among;
    var others := among - {k};
    if others == {} {
      assert among == {k};
      assert IsBest(keys, among, k);
    } else {
      SomeBest(keys, others);
      var best :| IsBest(keys, others, best);
      BestOfOneMore(keys, others, best, k);
      assert others + {k} == among;
    }
  }

  lemma PickIsBest(keys: multiset<string>)
    ensures keys == multiset{} <==> Pick(keys).None?
    ensures Pick(keys).Some? ==> IsBest(keys, KeySet(keys), Pick(keys).value)
  {
    if keys != multiset{} {
      var k :| k in keys;
      assert k in KeySet(keys);
      SomeBest(keys, KeySet(keys));
    } else {
      assert KeySet(keys) == {};
    }
  }

  // ---------- the tally ----------

  ghost function TallyOf(votes: seq<DirectionVote>, ids: Option<set<string>>): Tally {
    var valid := Filter(votes, Valid(ids));
    var keys := multiset(PickKeys(valid));
    var pick := Pick(keys);
    var count := if pick.Some? then keys[pick.value] else 0;
    var human := |Filter(valid, ForHuman())|;
    Tally(count >= 2, pick, count, |valid|, valid, Filter(valid, Against(pick)), human,
          count < 2 || human >= 1, Filter(votes, Invalid(ids)))
  }

  method CountKeys(votes: seq<DirectionVote>) returns (counts: map<string, nat>)
    ensures forall k :: k in counts <==> k in PickKeys(votes)
    ensures forall k :: k in counts ==> counts[k] == multiset(PickKeys(votes))[k]
  {
    counts := map[];
    for i := 0 to |votes|
      invariant forall k :: k in counts <==> k in PickKeys(votes[..i])
      invariant forall k :: k in counts ==> counts[k] == multiset(PickKeys(votes[..i]))[k]
    {
      assert votes[..i + 1][..i] == votes[..i];
      if !votes[i].decision.NeedsHuman? {
        var key := VoteKey(votes[i]);
        var entry := if key in counts then counts[key] else 0;
        counts := counts[key := entry + 1];
      }
    }
    assert votes[..|votes|] == votes;
  }

  /** The greatest entry by count, and by the reverse of the key order among equals. */
  method MaxEntry(counts: map<string, nat>, ghost keys: multiset<string>) returns (pick: Option<string>, count: nat)
    requires forall k :: k in counts <==> k in keys
    requires forall k :: k in counts ==> counts[k] == keys[k]
    ensures pick == Pick(keys)
    ensures count == if pick.Some? then keys[pick.value] else 0
  {
    pick, count := None, 0;
    var left := counts.Keys;
    while left != {}
      invariant left <= counts.Keys
      invariant pick.None? ==> left == counts.Keys && count == 0
      invariant pick.Some? ==> IsBest(keys, counts.Keys - left, pick.value) && count == keys[pick.value]
      decreases left
    {
      var k :| k in left;
      ghost var seen := counts.Keys - left;
      left := left - {k};
      assert counts.Keys - left == seen + {k};
      if pick.Some? {
        BestOfOneMore(keys, seen, pick.value, k);
      }
      if pick.None? || count < counts[k] || (count == counts[k] && !Before(pick.value, k)) {
        pick, count := Some(k), counts[k];
      }
    }
    assert counts.Keys - left == KeySet(keys);
    PickIsBest(keys);
    if pick.Some? {
      OneBest(keys, KeySet(keys), pick.value, Pick(keys).value);
    }
  }

  method TallyVotes(votes: seq<DirectionVote>, ids: Option<set<string>>) returns (tally: Tally)
    ensures tally == TallyOf(votes, ids)
  {
    var valid, invalid := [], [];
    for i := 0 to |votes|
      invariant valid == Filter(votes[..i], Valid(ids))
      invariant invalid == Filter(votes[..i], Invalid(ids))
    {
      assert votes[..i + 1][..i] == votes[..i];
      if IsValidVote(votes[i], ids) {
        valid := valid + [votes[i]];
      } else {
        invalid := invalid + [votes[i]];
      }
    }
    assert votes[..|votes|] == votes;
    var human := |Filter(valid, ForHuman())|;
    var counts := CountKeys(valid);
    var pick, count := MaxEntry(counts, multiset(PickKeys(valid)));
    tally := Tally(count >= 2, pick, count, |valid|, valid, Filter(valid, Against(pick)), human,
                   !(count >= 2) || human >= 1, invalid);
  }

  // ---------- what the tally says ----------

  /** Valid and invalid votes share out the input, each part in input order. */
  lemma VotesPartitionInOrder(votes: seq<DirectionVote>, ids: Option<set<string>>)
      returns (valid: seq<nat>, invalid: seq<nat>)
    ensures IsAt(TallyOf(votes, ids).votes, votes, valid) && IsAt(TallyOf(votes, ids).invalidVotes, votes, invalid)
    ensures forall i: nat :: i in valid <==> i < |votes| && IsValidVote(votes[i], ids)
    ensures forall i: nat :: i in invalid <==> i < |votes| && i !in valid
    ensures |valid| + |invalid| == |votes|
  {
    valid := FilterIsAt(votes, Valid(ids));
    invalid := FilterIsAt(votes, Invalid(ids));
    FiltersAddUp(votes, Valid(ids), Invalid(ids));
  }

  lemma KeyOfPick(vote: DirectionVote)
    ensures vote.decision.NeedsHuman? <==> VoteKey(vote) == "needs_human"
  {
    assert VoteKey(vote)[0] == if vote.decision.NeedsHuman? then 'n' else 'p';
  }

  lemma {:induction false} KeyCount(votes: seq<DirectionVote>, key: string)
    requires key != "needs_human"
    ensures multiset(PickKeys(votes))[key] == |Filter(votes, ForKey(key))|
  {
    if votes != [] {
      var last := votes[|votes| - 1];
      KeyCount(votes[..|votes| - 1], key);
      KeyOfPick(last);
    }
  }

  lemma {:induction false} NoHumanKey(votes: seq<DirectionVote>)
    ensures "needs_human" !in PickKeys(votes)
  {
    if votes != [] {
      NoHumanKey(votes[..|votes| - 1]);
      KeyOfPick(votes[|votes| - 1]);
    }
  }

  ghost function VotesFor(votes: seq<DirectionVote>, key: string): nat {
    |Filter(votes, ForKey(key))|
  }

  /** A key that some vote for a task or a pattern carries. */
  ghost predicate IsPickKey(votes: seq<DirectionVote>, key: string) {
    key != "needs_human" && VotesFor(votes, key) > 0
  }

  lemma PickKeysAreCarried(votes: seq<DirectionVote>, key: string)
    ensures key in multiset(PickKeys(votes)) <==> IsPickKey(votes, key)
    ensures key != "needs_human" ==> multiset(PickKeys(votes))[key] == VotesFor(votes, key)
  {
    NoHumanKey(votes);
    if key != "needs_human" {
      KeyCount(votes, key);
    }
  }

  /** The pick is the least key among those most valid votes carry, votes for a human
      aside; there is none exactly when no valid vote picks anything. */
  lemma PickIsLeastOfTheMostVoted(votes: seq<DirectionVote>, ids: Option<set<string>>, key: string)
    ensures var t := TallyOf(votes, ids);
      && t.majorityPick.None? == (forall v :: v in t.votes ==> v.decision.NeedsHuman?)
      && (t.majorityPick.Some? ==>
            IsPickKey(t.votes, t.majorityPick.value) && t.majorityCount == VotesFor(t.votes, t.majorityPick.value))
      && (t.majorityPick.Some? && IsPickKey(t.votes, key) && key != t.majorityPick.value ==>
            || VotesFor(t.votes, key) < t.majorityCount
            || (VotesFor(t.votes, key) == t.majorityCount && Before(t.majorityPick.value, key)))
  {
    var t := TallyOf(votes, ids);
    var keys := multiset(PickKeys(t.votes));
    PickIsBest(keys);
    PickKeysAreCarried(t.votes, key);
    NoneWithoutPicks(t.votes);
    if t.majorityPick.Some? {
      PickKeysAreCarried(t.votes, t.majorityPick.value);
      assert key in keys ==> key in KeySet(keys);
    }
  }

  lemma {:induction false} NoneWithoutPicks(votes: seq<DirectionVote>)
    ensures multiset(PickKeys(votes)) == multiset{} <==> forall v :: v in votes ==> v.decision.NeedsHuman?
  {
    if votes != [] {
      var last := votes[|votes| - 1];
      NoneWithoutPicks(votes[..|votes| - 1]);
      assert votes == votes[..|votes| - 1] + [last];
      if !last.decision.NeedsHuman? {
        assert VoteKey(last) in PickKeys(votes);
      }
    }
  }

  /** The votes for the pick and the minority are all the valid votes. */
  lemma MajorityPlusMinority(votes: seq<DirectionVote>, ids: Option<set<string>>)
    ensures var t := TallyOf(votes, ids);
      t.majorityCount + |t.minority| == t.totalVoters == |t.votes|
  {
    var t := TallyOf(votes, ids);
    PickIsLeastOfTheMostVoted(votes, ids, "");
    if t.majorityPick.Some? {
      FiltersAddUp(t.votes, ForKey(t.majorityPick.value), Against(t.majorityPick));
    } else {
      FiltersAddUp(t.votes, Against(None), Nobody());
      NothingKept(t.votes);
    }
  }

  function Nobody(): DirectionVote -> bool {
    vote => false
  }

  lemma {:induction false} NothingKept(votes: seq<DirectionVote>)
    ensures Filter(votes, Nobody()) == []
  {
    if votes != [] {
      NothingKept(votes[..|votes| - 1]);
    }
  }

  /** A call for a human is never part of the majority. */
  lemma HumanVotesAreMinority(votes: seq<DirectionVote>, ids: Option<set<string>>)
    ensures var t := TallyOf(votes, ids);
      && (forall v :: v in t.votes && v.decision.NeedsHuman? ==> v in t.minority)
      && (t.needsHumanVotes >= 1 <==> exists v :: v in t.minority && v.decision.NeedsHuman?)
      && (t.needsHumanVotes >= 1 <==> exists v :: v in t.votes && v.decision.NeedsHuman?)
  {
    var t := TallyOf(votes, ids);
    PickIsLeastOfTheMostVoted(votes, ids, "");
    var human := Filter(t.votes, ForHuman());
    if human != [] {
      assert human[0] in human;
    }
  }

  /** The pick and all the counts depend on which votes there are, not on their order. */
  lemma TallyIgnoresOrder(votes: seq<DirectionVote>, shuffled: seq<DirectionVote>, ids: Option<set<string>>)
    requires multiset(votes) == multiset(shuffled)
    ensures var t, u := TallyOf(votes, ids), TallyOf(shuffled, ids);
      && t.majorityPick == u.majorityPick && t.majorityCount == u.majorityCount
      && t.totalVoters == u.totalVoters && t.needsHumanVotes == u.needsHumanVotes
      && t.supermajorityMet == u.supermajorityMet && t.needsInfo == u.needsInfo
      && multiset(t.votes) == multiset(u.votes) && multiset(t.minority) == multiset(u.minority)
      && multiset(t.invalidVotes) == multiset(u.invalidVotes)
  {
    var t, u := TallyOf(votes, ids), TallyOf(shuffled, ids);
    FilterIgnoresOrder(votes, shuffled, Valid(ids));
    FilterIgnoresOrder(votes, shuffled, Invalid(ids));
    FilterIgnoresOrder(t.votes, u.votes, ForHuman());
    KeysIgnoreOrder(t.votes, u.votes);
    FilterIgnoresOrder(t.votes, u.votes, Against(t.majorityPick));
  }

  lemma KeysIgnoreOrder(votes: seq<DirectionVote>, shuffled: seq<DirectionVote>)
    requires multiset(votes) == multiset(shuffled)
    ensures multiset(PickKeys(votes)) == multiset(PickKeys(shuffled))
  {
    forall key: string
      ensures multiset(PickKeys(votes))[key] == multiset(PickKeys(shuffled))[key]
    {
      NoHumanKey(votes);
      NoHumanKey(shuffled);
      if key != "needs_human" {
        KeyCount(votes, key);
        KeyCount(shuffled, key);
        FilterIgnoresOrder(votes, shuffled, ForKey(key));
      }
    }
  }
}
