/**
What comes out of src/decision.rs, field by field: findings, candidates, gates, payload, dissent.
*/
module DecisionMeaning {
  import opened Common
  import opened Selections
  import opened Text
  import opened TextMeaning
  import opened DecisionTally
  import opened TallyMeaning
  import opened Decision

  // ---------- runner families ----------

  /** The family of a runtime by the first of the known names its name holds. */
  lemma FamilyMeans(runtime: string)
    ensures var s := Lower(runtime);
      var claude := Contains(s, "claude") || Contains(s, "anthropic");
      var codex := Contains(s, "codex") || Contains(s, "gpt") || Contains(s, "openai");
      var pi := Contains(s, "pi") || Contains(s, "deepseek");
      var agy := Contains(s, "agy") || Contains(s, "gemini") || Contains(s, "google");
      FamilyOf(runtime) ==
        if claude then Claude else if codex then Codex else if pi then Pi else if agy then Agy else Unknown(s)
  {
    var s := Lower(runtime);
    FirstFive(s);
    LastFive(s);
    assert FAMILY_KEYS[0..] == FAMILY_KEYS;
  }

  lemma FirstFive(s: string)
    ensures FirstFamily(s, FAMILY_KEYS[0..]) ==
      if Contains(s, "claude") || Contains(s, "anthropic") then Claude
      else if Contains(s, "codex") || Contains(s, "gpt") || Contains(s, "openai") then Codex
      else FirstFamily(s, FAMILY_KEYS[5..])
  {
    FirstIs(s, FAMILY_KEYS, 0);
    FirstIs(s, FAMILY_KEYS, 1);
    FirstIs(s, FAMILY_KEYS, 2);
    FirstIs(s, FAMILY_KEYS, 3);
    FirstIs(s, FAMILY_KEYS, 4);
  }

  lemma LastFive(s: string)
    ensures FirstFamily(s, FAMILY_KEYS[5..]) ==
      if Contains(s, "pi") || Contains(s, "deepseek") then Pi
      else if Contains(s, "agy") || Contains(s, "gemini") || Contains(s, "google") then Agy
      else Unknown(s)
  {
    FirstIs(s, FAMILY_KEYS, 5);
    FirstIs(s, FAMILY_KEYS, 6);
    FirstIs(s, FAMILY_KEYS, 7);
    FirstIs(s, FAMILY_KEYS, 8);
    FirstIs(s, FAMILY_KEYS, 9);
    assert FAMILY_KEYS[10..] == [];
  }

  lemma FirstIs(s: string, keys: seq<(string, Family)>, i: nat)
    requires i < |keys|
    ensures FirstFamily(s, keys[i..]) ==
      if Contains(s, keys[i].0) then keys[i].1 else FirstFamily(s, keys[i + 1..])
  {
    assert keys[i..][1..] == keys[i + 1..];
  }

  /** Two of the runtimes belong to different families. */
  lemma TwoReviewersMean(results: seq<AgentResult>)
    ensures TwoFamilies(Repliers(results)) <==>
      exists i, j :: 0 <= i < |results| && 0 <= j < |results|
        && results[i].status.Done? && (exists c :: c in results[i].replyText && !IsWhite(c))
        && results[j].status.Done? && (exists c :: c in results[j].replyText && !IsWhite(c))
        && FamilyOf(results[i].runner) != FamilyOf(results[j].runner)
  {
    ReviewersAreRepliers(results);
    forall i | 0 <= i < |results|
      ensures Replied(results[i]) <==>
        results[i].status.Done? && exists c :: c in results[i].replyText && !IsWhite(c)
    {
      BlankMeans(results[i].replyText);
    }
  }

  // ---------- findings ----------

  function Flatten<T>(parts: seq<seq<T>>): seq<T> {
    if parts == [] then [] else Flatten(parts[..|parts| - 1]) + parts[|parts| - 1]
  }

  /** The findings as given, those without a source attributed to the runner. */
  ghost predicate AsGiven(out: seq<Finding>, given: seq<Finding>, runner: string) {
    && |out| == |given|
    && forall i :: 0 <= i < |out| ==>
         out[i] == Finding(given[i].severity, given[i].claim, given[i].reportedConfidence, given[i].invalidatedWhen,
                           given[i].evidenceToCheck, given[i].file,
                           Some(if given[i].source.Some? then given[i].source.value else runner))
  }

  /** What a job contributes: what it lists; of a list that cannot be read whole, the sound
      findings; without any of these, those in its reply; and where the reply holds none
      either, the reply itself as one finding of medium severity, unless it is blank. */
  ghost predicate Contributes(result: AgentResult, out: seq<Finding>) {
    var reading := result.reading;
    var given :=
      if !reading.hasFindings then [] else if reading.listed.Some? then reading.listed.value else reading.sound;
    if !result.status.Done? then out == []
    else if given != [] then AsGiven(out, given, result.runner)
    else if reading.replied.Some? then AsGiven(out, reading.replied.value, result.runner)
    else if exists c :: c in result.replyText && !IsWhite(c) then
      out == [Finding(Medium, result.replyText, None, None, None, None, Some(result.runner))]
    else out == []
  }

  lemma JobContributes(result: AgentResult)
    ensures Contributes(result, FindingsOf(result))
  {
    BlankMeans(result.replyText);
  }

  function FindingParts(results: seq<AgentResult>): (parts: seq<seq<Finding>>)
    ensures |parts| == |results| && forall i :: 0 <= i < |results| ==> parts[i] == FindingsOf(results[i])
  {
    seq(|results|, i requires 0 <= i < |results| => FindingsOf(results[i]))
  }

  lemma {:induction false} FindingsInParts(results: seq<AgentResult>)
    ensures AllFindings(results) == Flatten(FindingParts(results))
  {
    if results != [] {
      FindingsInParts(results[..|results| - 1]);
      assert FindingParts(results)[..|results| - 1] == FindingParts(results[..|results| - 1]);
    }
  }

  /** All findings, job by job in the order of the jobs. */
  lemma FindingsAre(results: seq<AgentResult>) returns (parts: seq<seq<Finding>>)
    ensures AllFindings(results) == Flatten(parts) && |parts| == |results|
    ensures forall i :: 0 <= i < |results| ==> Contributes(results[i], parts[i])
  {
    parts := FindingParts(results);
    FindingsInParts(results);
    forall i | 0 <= i < |results|
      ensures Contributes(results[i], parts[i])
    {
      JobContributes(results[i]);
    }
  }

  lemma {:induction false} FlattenMembers<T>(parts: seq<seq<T>>, x: T)
    ensures x in Flatten(parts) <==> exists i :: 0 <= i < |parts| && x in parts[i]
  {
    if parts != [] {
      var n := |parts| - 1;
      FlattenMembers(parts[..n], x);
      assert forall i :: 0 <= i < n ==> parts[..n][i] == parts[i];
      if x in Flatten(parts[..n]) {
        var i :| 0 <= i < n && x in parts[..n][i];
        assert x in parts[i];
      }
    }
  }

  /** A finding is handed on if and only if some job contributes it. */
  lemma FindingIffContributed(results: seq<AgentResult>, f: Finding)
    ensures f in AllFindings(results) <==>
      exists i, out :: 0 <= i < |results| && Contributes(results[i], out) && f in out
  {
    var parts := FindingsAre(results);
    FlattenMembers(parts, f);
    if i, out :| 0 <= i < |results| && Contributes(results[i], out) && f in out {
      OneContribution(results[i], out, parts[i]);
    }
    if f in AllFindings(results) {
      var i :| 0 <= i < |parts| && f in parts[i];
      assert Contributes(results[i], parts[i]);
    }
  }

  lemma OneContribution(result: AgentResult, a: seq<Finding>, b: seq<Finding>)
    requires Contributes(result, a) && Contributes(result, b)
    ensures a == b
  {
  }

  // ---------- candidates ----------

  ghost predicate VotesAsGiven(out: seq<DirectionVote>, given: seq<DirectionVote>, runner: string) {
    && |out| == |given|
    && forall i :: 0 <= i < |out| ==>
         out[i] == DirectionVote(
           given[i].decision, given[i].value, given[i].reasoning,
           if exists c :: c in given[i].source && !IsWhite(c) then given[i].source else runner)
  }

  /** The candidates of a job: those it lists, or else those in its reply. */
  ghost predicate Proposes(result: AgentResult, out: seq<DirectionVote>) {
    var reading := result.reading;
    if !result.status.Done? then out == []
    else if reading.hasFindings && reading.listedVotes.Some? then
      VotesAsGiven(out, reading.listedVotes.value, result.runner)
    else if reading.repliedVotes.Some? then VotesAsGiven(out, reading.repliedVotes.value, result.runner)
    else out == []
  }

  lemma GivenSource(vote: DirectionVote, runner: string)
    ensures WithSource(vote, runner) ==
      DirectionVote(vote.decision, vote.value, vote.reasoning,
                    if exists c :: c in vote.source && !IsWhite(c) then vote.source else runner)
  {
    BlankMeans(vote.source);
  }

  lemma SourcesGiven(votes: seq<DirectionVote>, runner: string)
    ensures VotesAsGiven(WithSources(votes, runner), votes, runner)
  {
    forall i | 0 <= i < |votes|
      ensures WithSource(votes[i], runner) ==
        DirectionVote(votes[i].decision, votes[i].value, votes[i].reasoning,
                      if exists c :: c in votes[i].source && !IsWhite(c) then votes[i].source else runner)
    {
      GivenSource(votes[i], runner);
    }
  }

  lemma JobProposes(result: AgentResult)
    ensures Proposes(result, CandidatesOf(result))
  {
    if result.reading.listedVotes.Some? {
      SourcesGiven(result.reading.listedVotes.value, result.runner);
    }
    if result.reading.repliedVotes.Some? {
      SourcesGiven(result.reading.repliedVotes.value, result.runner);
    }
  }

  function CandidateParts(results: seq<AgentResult>): (parts: seq<seq<DirectionVote>>)
    ensures |parts| == |results| && forall i :: 0 <= i < |results| ==> parts[i] == CandidatesOf(results[i])
  {
    seq(|results|, i requires 0 <= i < |results| => CandidatesOf(results[i]))
  }

  lemma {:induction false} CandidatesInParts(results: seq<AgentResult>)
    ensures Proposed(results) == Flatten(CandidateParts(results))
  {
    if results != [] {
      CandidatesInParts(results[..|results| - 1]);
      assert CandidateParts(results)[..|results| - 1] == CandidateParts(results[..|results| - 1]);
    }
  }

  /** All candidates, job by job in the order of the jobs. */
  lemma CandidatesAre(results: seq<AgentResult>) returns (parts: seq<seq<DirectionVote>>)
    ensures Proposed(results) == Flatten(parts) && |parts| == |results|
    ensures forall i :: 0 <= i < |results| ==> Proposes(results[i], parts[i])
  {
    parts := CandidateParts(results);
    CandidatesInParts(results);
    forall i | 0 <= i < |results|
      ensures Proposes(results[i], parts[i])
    {
      JobProposes(results[i]);
    }
  }

  // ---------- the pool ----------

  lemma CandidateMeans(candidate: DirectionVote, base: Option<set<string>>)
    ensures IsValidCandidate(candidate, base) <==>
      && (candidate.decision.PickTask? ==> base.Some? && candidate.value in base.value)
      && (candidate.decision.PickPattern? ==>
            || candidate.value == "linear" || candidate.value == "fan-out" || candidate.value == "adversarial"
            || candidate.value == "tournament" || candidate.value == "loop")
  {
    PatternsAre(candidate.value);
  }

  /** The pool takes the candidates that are for a task of the universe, or where that is
      empty of the given list, or for a pattern, or for a human; it keeps the others apart,
      both in order, and names the sources of all. */
  lemma PoolIs(request: Request, i: nat) returns (valid: seq<nat>, invalid: seq<nat>)
    ensures var proposed, pool := Proposed(request.candidateResults), PoolOf(request);
      && IsAt(pool.candidates, proposed, valid) && IsAt(pool.invalidCandidates, proposed, invalid)
      && (i in valid <==>
            && i < |proposed|
            && (proposed[i].decision.PickTask? ==>
                  if request.taskUniverse != {} then proposed[i].value in request.taskUniverse
                  else request.validTaskIds.Some? && proposed[i].value in request.validTaskIds.value)
            && (proposed[i].decision.PickPattern? ==>
                  || proposed[i].value == "linear" || proposed[i].value == "fan-out"
                  || proposed[i].value == "adversarial" || proposed[i].value == "tournament"
                  || proposed[i].value == "loop"))
      && (i in invalid <==> i < |proposed| && i !in valid)
      && (forall s :: s in pool.sources <==> exists c :: c in proposed && c.source == s)
  {
    var proposed := Proposed(request.candidateResults);
    valid := FilterIsAt(proposed, GoodCandidate(TaskBase(request)));
    invalid := FilterIsAt(proposed, BadCandidate(TaskBase(request)));
    if i < |proposed| {
      CandidateMeans(proposed[i], TaskBase(request));
    }
  }

  /** With divergence the vote is restricted to the tasks of the pool if two of its candidates
      come from different families, and otherwise to the given list. */
  lemma VotableTasksAre(request: Request)
    ensures var diverges := request.diverge && request.candidateResults != [];
      var c := PoolOf(request).candidates;
      var used := diverges
        && exists i, j :: 0 <= i < |c| && 0 <= j < |c| && FamilyOf(c[i].source) != FamilyOf(c[j].source);
      && VotableTasks(request) ==
           (if used then Some(set v | v in c && v.decision.PickTask? :: v.value) else request.validTaskIds)
      && KeptPool(request) == (if diverges then Some(PoolOf(request)) else None)
      && FallbackReason(request) == (if diverges && !used then Some(FellBack) else None)
  {
    var c := PoolOf(request).candidates;
    if i, j :| 0 <= i < |c| && 0 <= j < |c| && FamilyOf(c[i].source) != FamilyOf(c[j].source) {
      assert FamilyOf(Sources(c)[i]) != FamilyOf(Sources(c)[j]);
    }
  }

  // ---------- the outcome ----------

  function Rounds(request: Request): nat {
    if request.kind.Both? then (if request.diverge then 3 else 2)
    else if request.kind.Direction? && request.diverge then 2
    else 1
  }

  ghost predicate Refused(outcome: Outcome, kind: DecisionKind, reason: Reason, record: Option<string>) {
    && outcome.status == NeedsHumanJudgment && outcome.kind == kind && outcome.result == None
    && outcome.dissent == Dissent(Some(reason), [], [], [], 0, [])
    && outcome.dispatchedTo == [] && outcome.budgetConsumedEst == 0 && outcome.recordEscalateKey == record
  }

  ghost predicate FewFamilies(votes: seq<DirectionVote>) {
    forall i, j :: 0 <= i < |votes| && 0 <= j < |votes| ==> FamilyOf(votes[i].source) == FamilyOf(votes[j].source)
  }

  lemma FewFamiliesMeans(votes: seq<DirectionVote>)
    ensures FewFamilies(votes) <==> !TwoFamilies(Sources(votes))
  {
    var s := Sources(votes);
    if i, j :| 0 <= i < |votes| && 0 <= j < |votes| && FamilyOf(votes[i].source) != FamilyOf(votes[j].source) {
      assert FamilyOf(s[i]) != FamilyOf(s[j]);
    }
  }

  ghost predicate RefusedBy(r: Option<Outcome>, kind: DecisionKind, reason: Reason, record: Option<string>) {
    r.Some? && Refused(r.value, kind, reason, record)
  }

  lemma StopIs(request: Request, voters: bool, reviewers: bool)
    ensures var r := StopWhen(request, voters, reviewers);
      if request.budgetRemaining < 18_000 * Rounds(request) then RefusedBy(r, request.kind, BudgetExhausted, None)
      else if request.escalateKey in request.spawnedEscalateKeys then
        RefusedBy(r, request.kind, AlreadySpawned, None)
      else if !request.kind.Review? && !voters then
        RefusedBy(r, request.kind, FewVoters, Some(request.escalateKey))
      else if !request.kind.Direction? && !reviewers then
        RefusedBy(r, request.kind, FewReviewers, Some(request.escalateKey))
      else r.None?
  {
  }

  lemma StoppedIsTheOutcome(request: Request)
    ensures Stopped(request) == StopWhen(request, !FewFamilies(DirectionTally(request).votes),
                                         TwoFamilies(Repliers(request.reviewResults)))
    ensures Stopped(request).Some? ==> Decide(request) == Stopped(request).value
  {
    FewFamiliesMeans(DirectionTally(request).votes);
  }

  /** The gates in their order: the budget of 18000 tokens a round, the escalate point, two
      families among the valid votes, two families among the replies. */
  lemma GatesAre(request: Request)
    ensures
      if request.budgetRemaining < 18_000 * Rounds(request) then
        Refused(Decide(request), request.kind, BudgetExhausted, None)
      else if request.escalateKey in request.spawnedEscalateKeys then
        Refused(Decide(request), request.kind, AlreadySpawned, None)
      else if !request.kind.Review? && FewFamilies(DirectionTally(request).votes) then
        Refused(Decide(request), request.kind, FewVoters, Some(request.escalateKey))
      else if !request.kind.Direction? && !TwoFamilies(Repliers(request.reviewResults)) then
        Refused(Decide(request), request.kind, FewReviewers, Some(request.escalateKey))
      else Stopped(request).None?
  {
    StoppedIsTheOutcome(request);
    StopIs(request, !FewFamilies(DirectionTally(request).votes), TwoFamilies(Repliers(request.reviewResults)));
  }

  /** The direction payload, field by field. */
  ghost predicate ShowsDirection(d: DirectionPayload, request: Request) {
    var t := DirectionTally(request);
    && d.converged == (t.majorityCount >= 2) && d.pick == t.majorityPick && d.count == t.majorityCount
    && d.total == |t.votes| && d.votes == t.votes && d.minority == t.minority
    && d.candidatePool == (if request.diverge && request.candidateResults != [] then Some(PoolOf(request)) else None)
  }

  /** What a request that passes the gates gets: the payload of its tracks, what the host is
      to judge, the auditors, the cost and the record. */
  lemma OutcomeIs(request: Request)
    requires Stopped(request).None?
    ensures var o := Decide(request);
      && o.kind == request.kind && o.dispatchedTo == request.auditors
      && o.budgetConsumedEst == 18_000 * Rounds(request) && o.recordEscalateKey == Some(request.escalateKey)
      && o.result.Some?
      && (match request.kind
          case Direction => o.result.value.DirectionOnly? && ShowsDirection(o.result.value.direction, request)
          case Review => o.result.value == ReviewOnly(AllFindings(request.reviewResults))
          case Both =>
            && o.result.value.BothTracks? && ShowsDirection(o.result.value.direction, request)
            && o.result.value.findings == AllFindings(request.reviewResults))
  {
  }

  /** What is left to the judgement of the host. */
  lemma DissentIs(request: Request)
    requires Stopped(request).None?
    ensures var d, t := Decide(request).dissent, DirectionTally(request);
      && d.findingsForHost == (if request.kind.Direction? then [] else AllFindings(request.reviewResults))
      && (request.kind.Review? ==>
            && d.reason == None && d.minorityVotes == [] && d.invalidVotes == [] && d.invalidCandidates == []
            && d.needsHumanVotes == 0)
      && (!request.kind.Review? ==>
            && d.reason == FallbackReason(request) && d.minorityVotes == t.minority && d.invalidVotes == t.invalidVotes
            && d.needsHumanVotes == t.needsHumanVotes
            && d.invalidCandidates ==
                 if request.diverge && request.candidateResults != [] then PoolOf(request).invalidCandidates else [])
  {
  }

  /** A request that passes the gates converges unless its direction track lacks two votes
      for one pick, or has a valid vote for a human. */
  lemma StatusIs(request: Request)
    requires Stopped(request).None?
    ensures Decide(request).status ==
      if request.kind.Review? then Converged
      else
        var t := DirectionTally(request);
        if t.majorityCount >= 2 && forall v :: v in t.votes ==> !v.decision.NeedsHuman? then Converged else NeedsInfo
  {
    if !request.kind.Review? {
      HumanVotesAreMinority(request.directionVotes, VotableTasks(request));
    }
  }
}
