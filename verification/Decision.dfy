/**
The decision engine of src/decision.rs.
*/
module Decision {
  import opened Common
  import opened Text
  import opened DecisionTally

  // It consists of the budget and re-spawn gates, the divergence pool, the minimum of two
  // runner families on each track, and the status.

  const EST_TOKENS_PER_ROUND := 18_000

  /** The sentences that give the reason of a dissent. */
  datatype Reason = BudgetExhausted | AlreadySpawned | FewVoters | FewReviewers | FellBack

  datatype DecisionKind = Direction | Review | Both
  {
    predicate HasDirection() { this != Review }

    predicate HasReview() { this != Direction }
  }

  datatype DecisionStatus = Converged | NeedsInfo | NeedsHumanJudgment

  datatype JobStatus = Pending | Running | Done | Failed | Timeout | RateLimited | QuotaExhausted | Skipped

  datatype Severity = Critical | High | Medium | Low

  datatype Finding = Finding(
    severity: Severity, claim: string, reportedConfidence: Option<string>, invalidatedWhen: Option<string>,
    evidenceToCheck: Option<string>, file: Option<string>, source: Option<string>)

  /** What the JSON readers make of a job's findings and of its reply: the votes and the
      findings they hold, or None where the reader gives up. `sound` are the findings
      that can be read when not all of them can. */
  datatype Reading = Reading(
    hasFindings: bool,
    listedVotes: Option<seq<DirectionVote>>, repliedVotes: Option<seq<DirectionVote>>,
    listed: Option<seq<Finding>>, sound: seq<Finding>, replied: Option<seq<Finding>>)

  datatype AgentResult = AgentResult(runner: string, status: JobStatus, replyText: string, reading: Reading)

  datatype CandidatePool = CandidatePool(
    candidates: seq<DirectionVote>, invalidCandidates: seq<DirectionVote>, sources: set<string>)

  datatype Request = Request(
    kind: DecisionKind,
    auditors: seq<string>,
    budgetRemaining: nat,
    escalateKey: string,
    diverge: bool,
    spawnedEscalateKeys: set<string>,
    validTaskIds: Option<set<string>>,
    taskUniverse: set<string>,
    candidateResults: seq<AgentResult>,
    directionVotes: seq<DirectionVote>,
    reviewResults: seq<AgentResult>)

  datatype DirectionPayload = DirectionPayload(
    converged: bool, pick: Option<string>, count: nat, total: nat,
    votes: seq<DirectionVote>, minority: seq<DirectionVote>, candidatePool: Option<CandidatePool>)

  datatype Payload =
    | DirectionOnly(direction: DirectionPayload)
    | ReviewOnly(findings: seq<Finding>)
    | BothTracks(direction: DirectionPayload, findings: seq<Finding>)

  datatype Dissent = Dissent(
    reason: Option<Reason>, minorityVotes: seq<DirectionVote>, invalidVotes: seq<DirectionVote>,
    invalidCandidates: seq<DirectionVote>, needsHumanVotes: nat, findingsForHost: seq<Finding>)

  const NO_DISSENT := Dissent(None, [], [], [], 0, [])

  datatype Outcome = Outcome(
    status: DecisionStatus, kind: DecisionKind, result: Option<Payload>, dissent: Dissent,
    dispatchedTo: seq<string>, budgetConsumedEst: nat, recordEscalateKey: Option<string>)

  // ---------- runner families ----------

  datatype Family = Claude | Codex | Pi | Agy | Unknown(runtime: string)

  const FAMILY_KEYS: seq<(string, Family)> := [
    ("claude", Claude), ("anthropic", Claude), ("codex", Codex), ("gpt", Codex), ("openai", Codex),
    ("pi", Pi), ("deepseek", Pi), ("agy", Agy), ("gemini", Agy), ("google", Agy)
  ]

  function FirstFamily(lower: string, keys: seq<(string, Family)>): Family {
    if keys == [] then Unknown(lower)
    else if Contains(lower, keys[0].0) then keys[0].1
    else FirstFamily(lower, keys[1..])
  }

  function FamilyOf(runtime: string): Family {
    FirstFamily(Lower(runtime), FAMILY_KEYS)
  }

  ghost predicate TwoFamilies(runtimes: seq<string>) {
    exists i, j :: 0 <= i < |runtimes| && 0 <= j < |runtimes| && FamilyOf(runtimes[i]) != FamilyOf(runtimes[j])
  }

  method CountFamilies(runtimes: seq<string>) returns (enough: bool)
    ensures enough == TwoFamilies(runtimes)
  {
    var families: seq<Family> := [];
    for i := 0 to |runtimes|
      invariant forall j :: 0 <= j < i ==> FamilyOf(runtimes[j]) in families
      invariant forall f :: f in families ==> exists j :: 0 <= j < i && FamilyOf(runtimes[j]) == f
      invariant forall a, b :: 0 <= a < b < |families| ==> families[a] != families[b]
    {
      var family := FamilyOf(runtimes[i]);
      if family !in families {
        families := families + [family];
      }
    }
    enough := |families| >= 2;
    if enough {
      assert families[0] in families && families[1] in families;
    }
  }

  function Sources(votes: seq<DirectionVote>): (r: seq<string>)
    ensures |r| == |votes|
    ensures forall i :: 0 <= i < |r| ==> r[i] == votes[i].source
  {
    seq(|votes|, i requires 0 <= i < |votes| => votes[i].source)
  }

  predicate Replied(result: AgentResult) {
    result.status.Done? && Trim(result.replyText) != []
  }

  function Repliers(results: seq<AgentResult>): seq<string> {
    if results == [] then []
    else
      var last := results[|results| - 1];
      Repliers(results[..|results| - 1]) + if Replied(last) then [last.runner] else []
  }

  // ---------- divergence ----------

  function WithSource(vote: DirectionVote, runner: string): DirectionVote {
    if Trim(vote.source) == [] then vote.(source := runner) else vote
  }

  function WithSources(votes: seq<DirectionVote>, runner: string): (r: seq<DirectionVote>)
    ensures |r| == |votes|
    ensures forall i :: 0 <= i < |r| ==> r[i] == WithSource(votes[i], runner)
  {
    seq(|votes|, i requires 0 <= i < |votes| => WithSource(votes[i], runner))
  }

  /** The candidates of one job: those listed as findings, or else those in the reply. */
  function CandidatesOf(result: AgentResult): seq<DirectionVote> {
    var reading := result.reading;
    if !result.status.Done? then []
    else if reading.hasFindings && reading.listedVotes.Some? then WithSources(reading.listedVotes.value, result.runner)
    else if reading.repliedVotes.Some? then WithSources(reading.repliedVotes.value, result.runner)
    else []
  }

  function Proposed(results: seq<AgentResult>): seq<DirectionVote> {
    if results == [] then []
    else Proposed(results[..|results| - 1]) + CandidatesOf(results[|results| - 1])
  }

  method FillMissingSources(votes: seq<DirectionVote>, runner: string) returns (filled: seq<DirectionVote>)
    ensures filled == WithSources(votes, runner)
  {
    filled := votes;
    for i := 0 to |votes|
      invariant |filled| == |votes|
      invariant forall j :: 0 <= j < i ==> filled[j] == WithSource(votes[j], runner)
      invariant forall j :: i <= j < |votes| ==> filled[j] == votes[j]
    {
      if Trim(filled[i].source) == [] {
        filled := filled[i := filled[i].(source := runner)];
      }
    }
  }

  method MergeCandidates(results: seq<AgentResult>) returns (out: seq<DirectionVote>)
    ensures out == Proposed(results)
  {
    out := [];
    for i := 0 to |results|
      invariant out == Proposed(results[..i])
    {
      assert results[..i + 1][..i] == results[..i];
      var result := results[i];
      if !result.status.Done? {
        continue;
      }
      if result.reading.hasFindings && result.reading.listedVotes.Some? {
        var parsed := FillMissingSources(result.reading.listedVotes.value, result.runner);
        out := out + parsed;
        continue;
      }
      if result.reading.repliedVotes.Some? {
        var parsed := FillMissingSources(result.reading.repliedVotes.value, result.runner);
        out := out + parsed;
      }
    }
    assert results[..|results|] == results;
  }

  /** Unlike a vote, a candidate for a task needs a list of tasks to be in. */
  predicate IsValidCandidate(candidate: DirectionVote, base: Option<set<string>>) {
    match candidate.decision
    case PickTask => base.Some? && candidate.value in base.value
    case PickPattern => candidate.value in PATTERNS
    case NeedsHuman => true
  }

  function GoodCandidate(base: Option<set<string>>): DirectionVote -> bool {
    vote => IsValidCandidate(vote, base)
  }

  function BadCandidate(base: Option<set<string>>): DirectionVote -> bool {
    vote => !IsValidCandidate(vote, base)
  }

  function TaskBase(request: Request): Option<set<string>> {
    if request.taskUniverse != {} then Some(request.taskUniverse) else request.validTaskIds
  }

  function CandidateTaskIds(candidates: seq<DirectionVote>): set<string> {
    set c | c in candidates && c.decision.PickTask? :: c.value
  }

  function SourcesOf(candidates: seq<DirectionVote>): set<string> {
    set c | c in candidates :: c.source
  }

  function PoolOf(request: Request): CandidatePool {
    var proposed := Proposed(request.candidateResults);
    CandidatePool(
      Filter(proposed, GoodCandidate(TaskBase(request))), Filter(proposed, BadCandidate(TaskBase(request))),
      SourcesOf(proposed))
  }

  lemma PartsHaveTheSources(proposed: seq<DirectionVote>, base: Option<set<string>>)
    ensures SourcesOf(Filter(proposed, GoodCandidate(base)) + Filter(proposed, BadCandidate(base)))
      == SourcesOf(proposed)
  {
  }

  method DivergePhase(request: Request) returns (pool: CandidatePool)
    ensures pool == PoolOf(request)
  {
    var proposed := MergeCandidates(request.candidateResults);
    var base := TaskBase(request);
    var candidates: seq<DirectionVote>, invalid: seq<DirectionVote> := [], [];
    for i := 0 to |proposed|
      invariant candidates == Filter(proposed[..i], GoodCandidate(base))
      invariant invalid == Filter(proposed[..i], BadCandidate(base))
    {
      assert proposed[..i + 1][..i] == proposed[..i];
      if IsValidCandidate(proposed[i], base) {
        candidates := candidates + [proposed[i]];
      } else {
        invalid := invalid + [proposed[i]];
      }
    }
    assert proposed[..|proposed|] == proposed;
    pool := CandidatePool(candidates, invalid, SourcesOf(candidates + invalid));
    PartsHaveTheSources(proposed, base);
  }

  predicate Diverges(request: Request) {
    request.diverge && request.candidateResults != []
  }

  /** The pool can restrict the vote: its candidates come from two families. */
  ghost predicate PoolIsUsed(request: Request) {
    Diverges(request) && TwoFamilies(Sources(PoolOf(request).candidates))
  }

  /** The tasks that may be voted for: the proposed ones if the pool is used. */
  ghost function VotableTasks(request: Request): Option<set<string>> {
    if PoolIsUsed(request) then Some(CandidateTaskIds(PoolOf(request).candidates)) else request.validTaskIds
  }

  ghost function DirectionTally(request: Request): Tally {
    TallyOf(request.directionVotes, VotableTasks(request))
  }

  ghost function KeptPool(request: Request): Option<CandidatePool> {
    if Diverges(request) then Some(PoolOf(request)) else None
  }

  ghost function FallbackReason(request: Request): Option<Reason> {
    if Diverges(request) && !PoolIsUsed(request) then Some(FellBack) else None
  }

  method RunDirectionPhases(request: Request)
      returns (tally: Tally, pool: Option<CandidatePool>, fallback: Option<Reason>)
    ensures tally == DirectionTally(request)
    ensures pool == KeptPool(request)
    ensures fallback == FallbackReason(request)
  {
    if !request.diverge || request.candidateResults == [] {
      tally := TallyVotes(request.directionVotes, request.validTaskIds);
      return tally, None, None;
    }
    var made := DivergePhase(request);
    var enough := CountFamilies(Sources(made.candidates));
    if !enough {
      tally := TallyVotes(request.directionVotes, request.validTaskIds);
      return tally, Some(made), Some(FellBack);
    }
    tally := TallyVotes(request.directionVotes, Some(CandidateTaskIds(made.candidates)));
    return tally, Some(made), None;
  }

  // ---------- review ----------

  function Attributed(finding: Finding, runner: string): Finding {
    if finding.source.None? then finding.(source := Some(runner)) else finding
  }

  function AttributedAll(findings: seq<Finding>, runner: string): (r: seq<Finding>)
    ensures |r| == |findings|
    ensures forall i :: 0 <= i < |r| ==> r[i] == Attributed(findings[i], runner)
  {
    seq(|findings|, i requires 0 <= i < |findings| => Attributed(findings[i], runner))
  }

  function ListedFindings(reading: Reading): seq<Finding> {
    if !reading.hasFindings then []
    else if reading.listed.Some? then reading.listed.value
    else reading.sound
  }

  /** A reply that holds no findings is itself one finding. */
  function FindingsOf(result: AgentResult): seq<Finding> {
    if !result.status.Done? then []
    else if ListedFindings(result.reading) != [] then AttributedAll(ListedFindings(result.reading), result.runner)
    else if result.reading.replied.Some? then AttributedAll(result.reading.replied.value, result.runner)
    else if Trim(result.replyText) != [] then
      [Finding(Medium, result.replyText, None, None, None, None, Some(result.runner))]
    else []
  }

  function AllFindings(results: seq<AgentResult>): seq<Finding> {
    if results == [] then []
    else AllFindings(results[..|results| - 1]) + FindingsOf(results[|results| - 1])
  }

  method Attribute(findings: seq<Finding>, runner: string) returns (out: seq<Finding>)
    ensures out == AttributedAll(findings, runner)
  {
    out := findings;
    for i := 0 to |findings|
      invariant |out| == |findings|
      invariant forall j :: 0 <= j < i ==> out[j] == Attributed(findings[j], runner)
      invariant forall j :: i <= j < |findings| ==> out[j] == findings[j]
    {
      if out[i].source.None? {
        out := out[i := out[i].(source := Some(runner))];
      }
    }
  }

  method MergeFindings(results: seq<AgentResult>) returns (out: seq<Finding>)
    ensures out == AllFindings(results)
  {
    out := [];
    for i := 0 to |results|
      invariant out == AllFindings(results[..i])
    {
      assert results[..i + 1][..i] == results[..i];
      var result := results[i];
      if !result.status.Done? {
        continue;
      }
      if result.reading.hasFindings {
        var findings := if result.reading.listed.Some? then result.reading.listed.value else result.reading.sound;
        findings := Attribute(findings, result.runner);
        if findings != [] {
          out := out + findings;
          continue;
        }
      }
      if result.reading.replied.Some? {
        var findings := Attribute(result.reading.replied.value, result.runner);
        out := out + findings;
      } else if Trim(result.replyText) != [] {
        out := out + [Finding(Medium, result.replyText, None, None, None, None, Some(result.runner))];
      }
    }
    assert results[..|results|] == results;
  }

  method HasMinimumValidReviewers(results: seq<AgentResult>) returns (enough: bool)
    ensures enough == TwoFamilies(Repliers(results))
  {
    var runners: seq<string> := [];
    for i := 0 to |results|
      invariant runners == Repliers(results[..i])
    {
      assert results[..i + 1][..i] == results[..i];
      if Replied(results[i]) {
        runners := runners + [results[i].runner];
      }
    }
    assert results[..|results|] == results;
    enough := CountFamilies(runners);
  }

  // ---------- the decision ----------

  function RoundsNeeded(kind: DecisionKind, diverge: bool): nat {
    match (kind, diverge)
    case (Both, true) => 3
    case (Both, false) => 2
    case (Direction, true) => 2
    case _ => 1
  }

  function EstimatedCost(request: Request): nat {
    EST_TOKENS_PER_ROUND * RoundsNeeded(request.kind, request.diverge)
  }

  function Payloaded(tally: Tally, pool: Option<CandidatePool>): DirectionPayload {
    DirectionPayload(tally.supermajorityMet, tally.majorityPick, tally.majorityCount, tally.totalVoters,
                     tally.votes, tally.minority, pool)
  }

  /** The veto of a human vote is looked for in the minority. */
  function ComposeStatus(kind: DecisionKind, direction: Option<DirectionPayload>): DecisionStatus {
    if kind.Review? then Converged
    else if direction.None? then NeedsInfo
    else if !direction.value.converged
         || exists v :: v in direction.value.minority && v.decision.NeedsHuman? then NeedsInfo
    else Converged
  }

  function ComposePayload(
    kind: DecisionKind, direction: Option<DirectionPayload>, review: Option<seq<Finding>>): Option<Payload>
  {
    match kind
    case Direction => if direction.Some? then Some(DirectionOnly(direction.value)) else None
    case Review => if review.Some? then Some(ReviewOnly(review.value)) else None
    case Both =>
      if direction.Some? && review.Some? then Some(BothTracks(direction.value, review.value)) else None
  }

  function EdgeOutcome(kind: DecisionKind, reason: Reason, record: Option<string>): Outcome {
    Outcome(NeedsHumanJudgment, kind, None, NO_DISSENT.(reason := Some(reason)), [], 0, record)
  }

  /** The first gate that stops the request. Only the gates behind the re-spawn check
      have the escalate point recorded. */
  function StopWhen(request: Request, voters: bool, reviewers: bool): Option<Outcome> {
    if request.budgetRemaining < EstimatedCost(request) then
      Some(EdgeOutcome(request.kind, BudgetExhausted, None))
    else if request.escalateKey in request.spawnedEscalateKeys then
      Some(EdgeOutcome(request.kind, AlreadySpawned, None))
    else if request.kind.HasDirection() && !voters then
      Some(EdgeOutcome(request.kind, FewVoters, Some(request.escalateKey)))
    else if request.kind.HasReview() && !reviewers then
      Some(EdgeOutcome(request.kind, FewReviewers, Some(request.escalateKey)))
    else None
  }

  ghost predicate EnoughVoters(request: Request) {
    TwoFamilies(Sources(DirectionTally(request).votes))
  }

  ghost predicate EnoughReviewers(request: Request) {
    TwoFamilies(Repliers(request.reviewResults))
  }

  ghost function Stopped(request: Request): Option<Outcome> {
    StopWhen(request, EnoughVoters(request), EnoughReviewers(request))
  }

  ghost function DirectionPart(request: Request): Option<DirectionPayload> {
    if request.kind.HasDirection() then Some(Payloaded(DirectionTally(request), KeptPool(request))) else None
  }

  ghost function DirectionDissent(request: Request): Dissent {
    if !request.kind.HasDirection() then NO_DISSENT
    else
      var tally := DirectionTally(request);
      Dissent(FallbackReason(request), tally.minority, tally.invalidVotes,
              if Diverges(request) then PoolOf(request).invalidCandidates else [], tally.needsHumanVotes, [])
  }

  ghost function ReviewPart(request: Request): Option<seq<Finding>> {
    if request.kind.HasReview() then Some(AllFindings(request.reviewResults)) else None
  }

  ghost function Decide(request: Request): Outcome {
    var stopped := Stopped(request);
    if stopped.Some? then stopped.value
    else
      var direction, review := DirectionPart(request), ReviewPart(request);
      Outcome(
        ComposeStatus(request.kind, direction), request.kind, ComposePayload(request.kind, direction, review),
        DirectionDissent(request).(findingsForHost := if review.Some? then review.value else []),
        request.auditors, EstimatedCost(request), Some(request.escalateKey))
  }

  method RunDecision(request: Request) returns (outcome: Outcome)
    ensures outcome == Decide(request)
  {
    var cost := EstimatedCost(request);
    if request.budgetRemaining < cost {
      return EdgeOutcome(request.kind, BudgetExhausted, None);
    }
    if request.escalateKey in request.spawnedEscalateKeys {
      return EdgeOutcome(request.kind, AlreadySpawned, None);
    }
    var direction: Option<DirectionPayload>, review: Option<seq<Finding>> := None, None;
    var dissent := NO_DISSENT;
    if request.kind.HasDirection() {
      var tally, pool, fallback := RunDirectionPhases(request);
      var enough := CountFamilies(Sources(tally.votes));
      if !enough {
        return EdgeOutcome(request.kind, FewVoters, Some(request.escalateKey));
      }
      if fallback.Some? {
        dissent := dissent.(reason := fallback);
      }
      dissent := dissent.(minorityVotes := tally.minority, invalidVotes := tally.invalidVotes);
      if pool.Some? {
        dissent := dissent.(invalidCandidates := pool.value.invalidCandidates);
      }
      dissent := dissent.(needsHumanVotes := tally.needsHumanVotes);
      direction := Some(Payloaded(tally, pool));
    }
    if request.kind.HasReview() {
      var enough := HasMinimumValidReviewers(request.reviewResults);
      if !enough {
        return EdgeOutcome(request.kind, FewReviewers, Some(request.escalateKey));
      }
      var findings := MergeFindings(request.reviewResults);
      dissent := dissent.(findingsForHost := findings);
      review := Some(findings);
    }
    return Outcome(
        ComposeStatus(request.kind, direction), request.kind, ComposePayload(request.kind, direction, review),
        dissent, request.auditors, cost, Some(request.escalateKey));
  }

  // ---------- what a decision guarantees ----------

  ghost predicate Affordable(request: Request) {
    && request.budgetRemaining >= EstimatedCost(request)
    && request.escalateKey !in request.spawnedEscalateKeys
  }

  /** Two valid votes from different families, two valid votes that ask for the same
      task or pattern, and no valid vote for a human. The two agreeing votes may come
      from one family. */
  ghost predicate Agreed(votes: seq<DirectionVote>) {
    && TwoFamilies(Sources(votes))
    && (forall v :: v in votes ==> !v.decision.NeedsHuman?)
    && (exists key :: IsPickKey(votes, key) && VotesFor(votes, key) >= 2)
  }

  ghost predicate TwoReviewers(results: seq<AgentResult>) {
    exists i, j :: 0 <= i < |results| && 0 <= j < |results| && Replied(results[i]) && Replied(results[j])
      && FamilyOf(results[i].runner) != FamilyOf(results[j].runner)
  }

  lemma {:induction false} RepliersAreReplies(results: seq<AgentResult>)
    ensures forall i :: 0 <= i < |results| && Replied(results[i]) ==> results[i].runner in Repliers(results)
    ensures forall r :: r in Repliers(results) ==>
      exists i :: 0 <= i < |results| && Replied(results[i]) && results[i].runner == r
  {
    if results != [] {
      RepliersAreReplies(results[..|results| - 1]);
    }
  }

  lemma ReviewersAreRepliers(results: seq<AgentResult>)
    ensures TwoReviewers(results) <==> TwoFamilies(Repliers(results))
  {
    RepliersAreReplies(results);
    var runners := Repliers(results);
    if TwoFamilies(runners) {
      var i, j :| 0 <= i < |runners| && 0 <= j < |runners| && FamilyOf(runners[i]) != FamilyOf(runners[j]);
      assert runners[i] in runners && runners[j] in runners;
    }
  }

  lemma StatusOfTally(request: Request)
    requires request.kind.HasDirection()
    ensures ComposeStatus(request.kind, DirectionPart(request)) ==
      if DirectionTally(request).needsInfo then NeedsInfo else Converged
  {
    HumanVotesAreMinority(request.directionVotes, VotableTasks(request));
  }

  lemma EnoughVotes(votes: seq<DirectionVote>, ids: Option<set<string>>)
    ensures var t := TallyOf(votes, ids);
      t.majorityCount >= 2 <==> exists key :: IsPickKey(t.votes, key) && VotesFor(t.votes, key) >= 2
  {
    var t := TallyOf(votes, ids);
    PickIsLeastOfTheMostVoted(votes, ids, "");
    if key :| IsPickKey(t.votes, key) && VotesFor(t.votes, key) >= 2 {
      PickIsLeastOfTheMostVoted(votes, ids, key);
      var some := Filter(t.votes, ForKey(key));
      assert some[0] in some;
      KeyOfPick(some[0]);
    }
  }

  lemma AgreedExactlyWhen(votes: seq<DirectionVote>, ids: Option<set<string>>)
    ensures var t := TallyOf(votes, ids);
      Agreed(t.votes) <==> TwoFamilies(Sources(t.votes)) && !t.needsInfo
  {
    EnoughVotes(votes, ids);
    HumanVotesAreMinority(votes, ids);
  }

  /** When a decision converges, exactly. */
  lemma ConvergedExactlyWhen(request: Request)
    ensures Decide(request).status == Converged <==>
      && Affordable(request)
      && (request.kind.HasDirection() ==> Agreed(DirectionTally(request).votes))
      && (request.kind.HasReview() ==> TwoReviewers(request.reviewResults))
  {
    ReviewersAreRepliers(request.reviewResults);
    if request.kind.HasDirection() {
      StatusOfTally(request);
      AgreedExactlyWhen(request.directionVotes, VotableTasks(request));
    }
  }

  /** A stopped request needs a human; any other needs information exactly when the
      tally of its direction track says so. */
  lemma StatusFollowsTheTally(request: Request)
    ensures Stopped(request).Some? <==> Decide(request).status == NeedsHumanJudgment
    ensures Decide(request).status == NeedsInfo <==>
      Stopped(request).None? && request.kind.HasDirection() && DirectionTally(request).needsInfo
  {
    if request.kind.HasDirection() {
      StatusOfTally(request);
    }
  }

  /** A task picked with the pool in use was proposed by a candidate of the pool and is
      among the known task ids. */
  lemma PickedTaskWasProposed(request: Request) returns (candidate: DirectionVote, vote: DirectionVote)
    requires PoolIsUsed(request) && DirectionTally(request).majorityPick.Some?
    ensures vote in DirectionTally(request).votes && Some(VoteKey(vote)) == DirectionTally(request).majorityPick
    ensures vote.decision.PickTask? ==>
      && candidate in PoolOf(request).candidates && candidate.decision.PickTask? && candidate.value == vote.value
      && TaskBase(request).Some? && vote.value in TaskBase(request).value
  {
    var t := DirectionTally(request);
    PickIsLeastOfTheMostVoted(request.directionVotes, VotableTasks(request), "");
    var forPick := Filter(t.votes, ForKey(t.majorityPick.value));
    vote := forPick[0];
    assert vote in forPick;
    candidate := vote;
    if vote.decision.PickTask? {
      assert vote.value in CandidateTaskIds(PoolOf(request).candidates);
      candidate :| candidate in PoolOf(request).candidates
        && candidate.decision.PickTask? && candidate.value == vote.value;
    }
  }

  /** A point is recorded exactly when the request was affordable and the point new. */
  lemma RecordedExactlyWhen(request: Request)
    ensures Decide(request).recordEscalateKey == if Affordable(request) then Some(request.escalateKey) else None
  {
  }

  /** Once recorded, a point is not decided again. */
  lemma RecordedPointsAreRefused(request: Request, again: Request)
    requires Decide(request).recordEscalateKey == Some(again.escalateKey)
    requires again.spawnedEscalateKeys >= request.spawnedEscalateKeys + {again.escalateKey}
    ensures again.escalateKey !in request.spawnedEscalateKeys
    ensures Decide(again).status == NeedsHumanJudgment && Decide(again).recordEscalateKey.None?
  {
    RecordedExactlyWhen(request);
    RecordedExactlyWhen(again);
  }

  // ---------- non-interference ----------

  /** The review results look alike to the decision: same runner, same status, and both
      replies blank or both not. */
  ghost predicate LookAlike(a: seq<AgentResult>, b: seq<AgentResult>) {
    && |a| == |b|
    && forall i :: 0 <= i < |a| ==>
         a[i].runner == b[i].runner && a[i].status == b[i].status
         && (Trim(a[i].replyText) == [] <==> Trim(b[i].replyText) == [])
  }

  lemma {:induction false} SameRepliers(a: seq<AgentResult>, b: seq<AgentResult>)
    requires LookAlike(a, b)
    ensures Repliers(a) == Repliers(b)
  {
    if a != [] {
      SameRepliers(a[..|a| - 1], b[..|b| - 1]);
    }
  }

  function DirectionIn(result: Option<Payload>): Option<DirectionPayload> {
    if result.Some? && !result.value.ReviewOnly? then Some(result.value.direction) else None
  }

  lemma SameDirectionTrack(request: Request, results: seq<AgentResult>)
    ensures var other := request.(reviewResults := results);
      && DirectionPart(other) == DirectionPart(request) && DirectionDissent(other) == DirectionDissent(request)
      && DirectionTally(other) == DirectionTally(request)
  {
    var other := request.(reviewResults := results);
    assert PoolOf(other) == PoolOf(request);
    assert VotableTasks(other) == VotableTasks(request);
  }

  lemma StopDependsOn(a: Request, b: Request, voters: bool, reviewers: bool)
    requires a.kind == b.kind && a.diverge == b.diverge && a.budgetRemaining == b.budgetRemaining
    requires a.escalateKey == b.escalateKey && a.spawnedEscalateKeys == b.spawnedEscalateKeys
    ensures StopWhen(a, voters, reviewers) == StopWhen(b, voters, reviewers)
  {
  }

  lemma SameGates(request: Request, results: seq<AgentResult>)
    requires LookAlike(request.reviewResults, results)
    ensures EnoughVoters(request.(reviewResults := results)) == EnoughVoters(request)
    ensures EnoughReviewers(request.(reviewResults := results)) == EnoughReviewers(request)
  {
    SameDirectionTrack(request, results);
    SameRepliers(request.reviewResults, results);
  }

  lemma SameStop(request: Request, results: seq<AgentResult>)
    requires LookAlike(request.reviewResults, results)
    ensures Stopped(request.(reviewResults := results)) == Stopped(request)
  {
    SameGates(request, results);
    StopDependsOn(request, request.(reviewResults := results), EnoughVoters(request), EnoughReviewers(request));
  }

  /** Whatever the findings, confidences and replies of a review say, they change nothing
      but the findings handed to the host. */
  lemma ReviewsDoNotInterfere(request: Request, results: seq<AgentResult>)
    requires LookAlike(request.reviewResults, results)
    ensures var a, b := Decide(request), Decide(request.(reviewResults := results));
      && a.status == b.status && a.dispatchedTo == b.dispatchedTo && a.budgetConsumedEst == b.budgetConsumedEst
      && a.recordEscalateKey == b.recordEscalateKey && DirectionIn(a.result) == DirectionIn(b.result)
      && a.dissent == b.dissent.(findingsForHost := a.dissent.findingsForHost)
  {
    SameStop(request, results);
    SameDirectionTrack(request, results);
  }

  // ---------- the order of the votes ----------

  lemma SourcesIgnoreOrder(votes: seq<DirectionVote>, shuffled: seq<DirectionVote>)
    requires multiset(votes) == multiset(shuffled) && TwoFamilies(Sources(votes))
    ensures TwoFamilies(Sources(shuffled))
  {
    var s := Sources(votes);
    var i, j :| 0 <= i < |s| && 0 <= j < |s| && FamilyOf(s[i]) != FamilyOf(s[j]);
    assert votes[i] in multiset(votes) && votes[j] in multiset(votes);
    assert votes[i] in shuffled && votes[j] in shuffled;
    var k :| 0 <= k < |shuffled| && shuffled[k] == votes[i];
    var l :| 0 <= l < |shuffled| && shuffled[l] == votes[j];
    assert Sources(shuffled)[k] == s[i] && Sources(shuffled)[l] == s[j];
  }

  ghost predicate SameCounts(t: Tally, u: Tally) {
    && t.majorityPick == u.majorityPick && t.majorityCount == u.majorityCount && t.totalVoters == u.totalVoters
    && t.supermajorityMet == u.supermajorityMet && t.needsInfo == u.needsInfo
    && (TwoFamilies(Sources(t.votes)) <==> TwoFamilies(Sources(u.votes)))
  }

  lemma TalliesAgree(request: Request, shuffled: seq<DirectionVote>)
    requires multiset(request.directionVotes) == multiset(shuffled)
    ensures var other := request.(directionVotes := shuffled);
      SameCounts(DirectionTally(request), DirectionTally(other))
  {
    var other := request.(directionVotes := shuffled);
    assert PoolOf(other) == PoolOf(request);
    assert VotableTasks(other) == VotableTasks(request);
    TallyIgnoresOrder(request.directionVotes, shuffled, VotableTasks(request));
    var t, u := DirectionTally(request), DirectionTally(other);
    if TwoFamilies(Sources(t.votes)) {
      SourcesIgnoreOrder(t.votes, u.votes);
    }
    if TwoFamilies(Sources(u.votes)) {
      SourcesIgnoreOrder(u.votes, t.votes);
    }
  }

  lemma SameVoters(request: Request, shuffled: seq<DirectionVote>)
    requires multiset(request.directionVotes) == multiset(shuffled)
    ensures EnoughVoters(request.(directionVotes := shuffled)) == EnoughVoters(request)
  {
    TalliesAgree(request, shuffled);
  }

  lemma SameStopForVotes(request: Request, shuffled: seq<DirectionVote>)
    requires multiset(request.directionVotes) == multiset(shuffled)
    ensures Stopped(request.(directionVotes := shuffled)) == Stopped(request)
  {
    SameVoters(request, shuffled);
    StopDependsOn(request, request.(directionVotes := shuffled), EnoughVoters(request), EnoughReviewers(request));
  }

  lemma SameStatusForVotes(request: Request, shuffled: seq<DirectionVote>)
    requires multiset(request.directionVotes) == multiset(shuffled)
    ensures Decide(request).status == Decide(request.(directionVotes := shuffled)).status
  {
    var other := request.(directionVotes := shuffled);
    SameStopForVotes(request, shuffled);
    TalliesAgree(request, shuffled);
    StatusFollowsTheTally(request);
    StatusFollowsTheTally(other);
  }

  lemma DirectionInOutcome(request: Request)
    ensures DirectionIn(Decide(request).result) == if Stopped(request).Some? then None else DirectionPart(request)
  {
  }

  /** The same pick, with the same counts. */
  predicate SamePick(d: Option<DirectionPayload>, e: Option<DirectionPayload>) {
    match (d, e)
    case (None, None) => true
    case (Some(d), Some(e)) =>
      d.pick == e.pick && d.count == e.count && d.total == e.total && d.converged == e.converged
    case _ => false
  }

  lemma SamePickForVotes(request: Request, shuffled: seq<DirectionVote>)
    requires multiset(request.directionVotes) == multiset(shuffled)
    ensures SamePick(DirectionPart(request), DirectionPart(request.(directionVotes := shuffled)))
  {
    TalliesAgree(request, shuffled);
  }

  /** Casting the same votes in another order gives the same status, pick and counts. */
  lemma VoteOrderDoesNotMatter(request: Request, shuffled: seq<DirectionVote>)
    requires multiset(request.directionVotes) == multiset(shuffled)
    ensures var a, b := Decide(request), Decide(request.(directionVotes := shuffled));
      a.status == b.status && SamePick(DirectionIn(a.result), DirectionIn(b.result))
  {
    SameStatusForVotes(request, shuffled);
    SamePickForVotes(request, shuffled);
    SameStopForVotes(request, shuffled);
    DirectionInOutcome(request);
    DirectionInOutcome(request.(directionVotes := shuffled));
  }
}
