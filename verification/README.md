# LTO in Dafny

A model of the parts of LTO, the local orchestrator for long-running agent work, whose
correctness is not visible from one function body: the crash-tolerant event log that many
processes append to, the audit ledger kept as a Markdown table, the decision engine, the
dispatch-window records, the canonical JSON behind evidence hashes, shell quoting, the
reliability gate and the registry of waiting processes.

`dafny verify dfyconfig.toml` checks everything.

| file | what it models |
|---|---|
| `EventProtocol`, `EventIds`, `EventStore` | `src/events.rs`: the lock, the reclaim protocol, the counter and the log as a step system over any number of crashing processes; emit, read and wait as code |
| `LedgerTable`, `LedgerReading`, `LedgerUpgrade`, `LedgerMeaning`, `LedgerProbes`, `LedgerHeaders`, `LedgerAppend`, `LedgerWriting`, `LedgerRoundTrip`, `LedgerAppends`, `LedgerGrowth`, `LedgerRuns`, `LedgerEmpty`, `LedgerTemplate` | `src/audit_ledger.rs` and the parser of `src/ledger.rs` |
| `LedgerAnalysis`, `AnalysisMeaning` | the verdict and the diagnosis of `src/ledger.rs` |
| `DecisionTally`, `TallyMeaning`, `Decision`, `DecisionMeaning` | `src/decision.rs` |
| `DispatchWindows`, `DispatchMeaning` | the window records of `src/dispatch_goal.rs` and `src/agent_turn.rs` |
| `CanonicalJson`, `JsonRoundTrip`, `JsonMeaning`, `JsonText` | `python_style_json` of `src/llm_judge.rs` |
| `ShellQuote` | `shell_single_quote` of `src/process.rs` |
| `Reliability`, `ReliabilityLaws`, `ReliabilityMeaning` | `src/autonomous_gate.rs` |
| `Notify` | `src/notify.rs` |
| `Text`, `TextMeaning`, `Selections`, `Common` | the string operations, the selections from lists and the result types the others share |

Code that changes state is a class or a step system; each method is proved equal to a
specification function, and the properties are lemmas about that function over all inputs
or all runs. What the specification functions themselves say is stated without them, by
fields, positions, characters and constants, in the modules named `...Meaning` and in
`LedgerReading`, `LedgerWriting` and `JsonText`.

## Assumptions

- The staleness test of the event lock is an oracle: it may answer "stale" only for an
  inode whose creator has crashed, and may always answer "not stale".
- One append to the log is atomic. A counter file is absent, unreadable or a number;
  writing it is two steps, truncate and write, so a crash in between leaves it unreadable.
- Renames, hard links, exclusive creates and file locks behave as on a POSIX file system;
  the operating system gives a file lock back when its holder dies.
- Saving the run state stores it.

## Where the code falls short of what one might expect

- `upgrade_schema` is not idempotent on every text. `"a\r\r\n"` becomes `"a\r\n"` and then
  `"a\n"` (`StrayCrBreaksIdempotence`). It is idempotent exactly on the texts in which no
  line it copies ends with a carriage return (`UpgradeIdempotentIff`).
- The upgrade widens eight-cell rows under any header. Under an eight-column header in
  another order it turns the counts 1 and 2 into 3 and 4 (`ForeignHeaderLosesMeaning` is such
  a file). A header is safe whatever rows follow it exactly if it names no counts, or is
  neither eight nor nine cells wide, or has eight cells, is no round row and names the legacy
  columns, or has nine cells and reads widened rows (`HeaderIsSafeIffHarmless`).
- A printed row with a cell that reads "round" is taken for a header and lost; otherwise it
  is read back (`RowReadsBack` states both directions, `AppendOfHeaderAddsNothing` the same for
  the file). As the first append to a new ledger it fails for want of an observation.
- A lost counter is healed by counting lines. The next id keeps the log in order exactly when
  the log has no gap (`HealedEmitKeepsOrderIffDense`). It may still be fresh, as the 3 after
  the ids 1 and 5, but with a gap in the log some later emit repeats an id, and without one
  none does (`EmitsRepeatIffIdAhead`, `EmitsEverRepeatIffGap`, `RunsRepeatIffGap`) until an
  emit that dies between counter and append leaves one (`LostCounterAfterGapRepeatsAnId`).
- `retain_dispatch_window` looks for a window id only, so with one id shared by two runners
  it may retain the other runner's record (`RetainHitsPairExactlyWhen`).

## Model

| member | source | states |
|---|---|---|
| `EventProtocol.StepKeepsLockInv` | src/events.rs:337-472 | every system call of every process, and a crash anywhere, keeps the lock invariant: holders own the named inode, a lock left behind has a crashed creator, guard and hard links match the reclaimers' progress, positive verdicts stay true until acted on |
| `EventProtocol.MutualExclusion` | src/events.rs:366-420 | in every interleaving with crashes at most one live process is past acquisition, and the lock path names the inode it created |
| `EventProtocol.OnlyOwnOrStaleLocksAreRemoved` | src/events.rs:337-454 | the lock name disappears only by the hand of the inode's creator or by a reclaimer after that creator has crashed |
| `EventProtocol.StaleVerdictStays` | src/events.rs:445-446 | while a reclaimer holds a hard link, the inode it judged stale stays stale; its number is not reused |
| `EventProtocol.ReclaimTargetStays` | src/events.rs:447-451 | between the identity check and the unlink no other process moves the lock path |
| `EventProtocol.GuardHolderFinishes` | src/events.rs:434-472 | whoever holds the reclaim guard is alive and can finish by its own steps, leaving the lock as it was or free |
| `EventProtocol.ReclaimAlone` | src/events.rs:434-454 | with the guard free an idle process alone removes a crashed owner's lock and leaves nothing else changed |
| `EventProtocol.CrashesNeverBlock` | src/events.rs:355-472 | after any run, wherever owners and reclaimers crashed, an idle process can still get the lock, with at most the one live guard holder finishing first |
| `EventIds.IdsStrictlyIncrease` | src/events.rs:96-143 | over every run in which the counter is not lost, event ids strictly increase and none is above the counter; crashes leave gaps only |
| `EventIds.LogOnlyGrows` | src/events.rs:133-143 | no step ever changes or drops a line of the log |
| `EventIds.UnforcedIdsStopAtTheLimit` | src/events.rs:96-104 | in every run the id of an emit that was not forced is at most the hard stop |
| `EventIds.NoIdAboveTheHardStop` | src/events.rs:96-104 | from an empty log and with no forced emit no id exceeds the hard stop, whatever happens to the counter |
| `EventIds.IdsStayDense` | src/events.rs:286-335 | however often the counter is lost, emptied or corrupted, ids stay exactly 1..n as long as no emit dies between counter and append, and whoever reads the counter next is led to n + 1 |
| `EventIds.HealedEmitKeepsOrderIffDense` | src/events.rs:286-329 | the first emit after the counter is lost keeps the ids of the log increasing if and only if the log has no gap |
| `EventIds.EmitsRepeatIffIdAhead` | src/events.rs:96-143 | with the counter lost, k undisturbed emits, forced or below the hard stop, repeat an id if and only if the log holds one of the k numbers after its line count |
| `EventIds.EmitsEverRepeatIffGap` | src/events.rs:96-143 | undisturbed emits after the loss of the counter ever repeat an id if and only if the log has a gap |
| `EventIds.RunsRepeatIffGap` | src/events.rs:96-143 | over every interleaving in which no emit dies between counter and append, an id can come twice after the loss of the counter if and only if the log has a gap already |
| `EventIds.LostCounterAfterGapRepeatsAnId` | src/events.rs:286-335 | a concrete run of crash, reclaim, emit, loss of the counter, emit that ends with one id twice |
| `EventStore.RunDirectory.CountFileEvents` | src/events.rs:286-294 | counts the lines of the log that are not blank |
| `EventStore.RunDirectory.ReadEventCounter` | src/events.rs:311-331 | yields the counter, or the line count if it is missing or unreadable, and removes an unreadable counter file |
| `EventStore.RunDirectory.Emit` | src/events.rs:76-143 | which of the five refusals comes first and exactly when, the hard stop at 50000, and otherwise the counter one higher and one more line with that id, type and summary |
| `EventStore.RunDirectory.Read` | src/events.rs:146-168 | refines the de-duplicating read that the lemmas below describe |
| `EventStore.EmitFollowsTheProtocol` | src/events.rs:96-143 | what the sequential emit does to the files, with blank and unreadable lines among them, is a run of the step system's critical section by one process |
| `EventStore.HardStopFollowsTheProtocol` | src/events.rs:96-104 | so is its refusal at the hard stop: the counter is read, an unreadable counter file goes, nothing is written |
| `EventStore.ReadKeepsFirstOccurrences` | src/events.rs:146-168 | read returns, in file order, the events at exactly those lines whose id no earlier line carries, or that have none |
| `EventStore.ReadIdsDistinct` | src/events.rs:146-168 | no two events read share an id, whatever the file holds |
| `EventStore.ReadGrowsWithTheFile` | src/events.rs:146-168 | appending lines leaves everything read before as a prefix of what is read |
| `EventStore.CheckEvents` | src/events.rs:198-212 | finds the first event that has the type and an id above the cursor, and none exactly if there is none |
| `EventStore.WaitFor` | src/events.rs:178-247 | what is returned has the type and an id above the cursor, or above all ids at call time without one; a timeout means that no state seen held such an event |
| `EventStore.WaitMeans` | src/events.rs:178-247 | a wait returns an event of the type above the cursor that one of the states it saw holds, and times out exactly if none does |
| `EventStore.CursorMeans` | src/events.rs:187-195 | the cursor is the given one, or else the largest id present, or 0 |
| `EventStore.WaitReturnsFirstPending` | src/events.rs:178-247 | a wait returns the first event still owed to the caller, and times out only if no state it saw owed one |
| `EventStore.ChainedWaitsDeliverInOrder` | src/events.rs:178-247 | waits chained by the id of the last event deliver every later event of the type once, in log order, while the log grows; all of them once a wait that saw the final log has timed out |
| `EventStore.ChainedWaitsDeliverTheEvents` | src/events.rs:178-247 | position by position, chained waits deliver the events of the log of that type above the cursor, at places that go up, none left out before the last delivered and none at all after a final timeout |
| `EventStore.NoCursorMeansOnlyLaterEvents` | src/events.rs:187-195 | without a cursor a wait owes exactly the events appended after its first read, and never returns one that was present |
| `LedgerAnalysis.EvaluateLedger` | src/ledger.rs:206-223 | refines the verdict that VerdictMeaning and the four lemmas on rounds characterise |
| `LedgerAnalysis.VerdictMeaning` | src/ledger.rs:206-223 | Converged if and only if the last count is zero; lenient Rebound if and only if it is not and some count rises; strict Converging if and only if the counts strictly decrease to a nonzero end |
| `LedgerAnalysis.StrictVerdictMeaning` | src/ledger.rs:206-223 | of the lists that end above zero the strict verdict is Stalled if and only if the first pair that does not fall is level above zero, and Rebound if and only if it rises or is a pair of zeros |
| `AnalysisMeaning.ConvergedMeans` | src/ledger.rs:13-17 | the verdict is Converged, and the terminal Zero, if and only if the last round has no high and no critical count; there is no verdict on convergence and no diagnosis exactly for no rounds |
| `AnalysisMeaning.LenientVerdictMeans` | src/ledger.rs:206-223 | where high plus critical fits 64 bits, lenient Rebound holds if and only if the last sum is not 0 and some round has a larger sum than the one before it |
| `AnalysisMeaning.SaturatedVerdictMeans` | src/ledger.rs:13-17 | the same for all counts, with sums that stay at the largest 64-bit number |
| `AnalysisMeaning.StrictVerdictMeans` | src/ledger.rs:206-223 | for rounds that end above zero the strict verdict is Converging if and only if each sum is below the one before it, and Stalled if and only if the sums fall up to one above zero that stays |
| `LedgerAnalysis.PeakValues` | src/ledger.rs:318-342 | the values that remain peaks after repeated values are collapsed, in order |
| `LedgerAnalysis.ScanChanges` | src/ledger.rs:232-257 | whether some change falls, whether some rises, and how often the direction turns, equal changes aside |
| `AnalysisMeaning.MovesMean` | src/ledger.rs:232-262 | direction by whether some sum is above and some below the one before it; alternating if and only if there are a rise, a fall and a rise in this order or the reverse; the entropy review in the same terms |
| `AnalysisMeaning.PeaksMean` | src/ledger.rs:318-342 | the peaks are the values, in order, of exactly the plateaus that are higher than what comes before and after them |
| `AnalysisMeaning.EnvelopeMeans` | src/ledger.rs:344-356 | shrinking, expanding or flat if and only if there are two peaks and of any two the later is lower, higher or the same |
| `AnalysisMeaning.SampleAndLineageMean` | src/ledger.rs:263-316 | three rounds are sufficient; the lineage is recorded if and only if every round names auditors and coverage by more than white space |
| `LedgerAnalysis.Diagnose` | src/ledger.rs:225-278 | refines the diagnosis the lemmas below are about; none for no rounds |
| `LedgerAnalysis.TurnsAndPeaks` | src/ledger.rs:246-342 | for every nonempty sequence with t turns and p peaks, t + 1 <= 2p <= t + 3 |
| `LedgerAnalysis.DiagnosisIsCoherent` | src/ledger.rs:107-278 | a known envelope means mixed direction, alternating oscillation means two peaks or more, and an entropy review is suggested exactly for three rounds or more without exactly one turn |
| `LedgerAnalysis.VerdictAgreesWithDiagnosis` | src/ledger.rs:206-278 | verdict and diagnosis agree on terminal, direction and convergence for every list of rounds |
| `LedgerAnalysis.PlateausDoNotMatter` | src/ledger.rs:225-342 | repeating a value anywhere changes neither terminal, direction, oscillation, envelope nor the lenient verdict |
| `LedgerTable.PrintedRowSplits` | src/audit_ledger.rs:133-143 | a printed row of clean cells splits into those cells, by the upgrade's splitter and by the parser's |
| `LedgerTable.DecimalCounts` | src/ledger.rs:367-380 | the decimal of every u64 is read as that count |
| `LedgerTable.ParseCount` | src/ledger.rs:367-380 | refines the saturating sum over the parts of "a+b", failing if one of them is no u64 |
| `LedgerTable.ParseLedger` | src/ledger.rs:164-204 | refines the fold over lines that the round-trip and migration lemmas are about |
| `LedgerReading.CellsMean` | src/ledger.rs:294-301 | the cells are the trimmed line without its outer pipes, parted at the pipes and trimmed |
| `LedgerReading.CountMeans` | src/ledger.rs:367-380 | a count is the sum of its parts that are not blank, at most the largest u64, and fails exactly if one of them is no u64 |
| `LedgerReading.SumCounts` | src/ledger.rs:367-380 | "a+b" counts as the sum for all u64 values a and b |
| `LedgerReading.HeaderMeans` | src/ledger.rs:124-136 | a header gives the first cell of each name in whatever case, and nothing if it lacks one of the two counts |
| `LedgerReading.RowMeans` | src/ledger.rs:185-201 | a row reads as nothing exactly if both count cells are empty, as an error exactly if one is no count, the high cell first, and else as the round of its cells |
| `LedgerReading.ParseMeans` | src/ledger.rs:164-204 | a text reads as the rounds, in order, of exactly the table lines under a summary heading that are no header and no rule and say a round, under the last header before them in their section; it fails exactly if one is in error, with the error of the first |
| `LedgerTable.UpgradeSchema` | src/audit_ledger.rs:63-104 | refines the line-wise upgrade that the lemmas below are about |
| `LedgerWriting.UpgradeMeans` | src/audit_ledger.rs:63-104 | one line comes out for each line, changed only under a summary heading: the legacy header gets a coverage column, a rule becomes the nine-column rule, an eight-cell row of a round gets an empty fourth cell |
| `LedgerUpgrade.ReplacedLineReads` | src/audit_ledger.rs:69-98 | a replaced line reads as the nine-column header, the nine-column rule, or the old cells with an empty coverage cell |
| `LedgerUpgrade.ReplacedLineStays` | src/audit_ledger.rs:69-98 | the upgrade changes nothing more about a line it has replaced |
| `LedgerUpgrade.UpgradeIdempotentIff` | src/audit_ledger.rs:63-104 | upgrading twice equals upgrading once if and only if no copied line ends with a carriage return |
| `LedgerUpgrade.StrayCrBreaksIdempotence` | src/audit_ledger.rs:63-104 | a text on which the second upgrade still changes something |
| `LedgerUpgrade.StandardHeadersArePlain` | src/ledger.rs:123-161 | the legacy and the current header give the columns their width stands for, so both are within the migration lemma |
| `LedgerMeaning.UpgradeKeepsMeaning` | src/audit_ledger.rs:63-104 | parsing before and after the upgrade gives the same rounds or the same failure for every text with harmless headers, rows of eight and nine cells mixed |
| `LedgerMeaning.UpgradedLinesStayPlain` | src/audit_ledger.rs:63-104 | the upgrade keeps the condition on headers that appends ask for |
| `LedgerHeaders.WideningKeepsReadingIff` | src/ledger.rs:123-201 | eight columns read every row as nine columns read the widened row if and only if they are the legacy columns |
| `LedgerHeaders.HeaderIsSafeIffHarmless` | src/audit_ledger.rs:63-104 | the upgrade keeps the meaning of every text whose summary starts with a given header and has no other if and only if that header is harmless |
| `LedgerHeaders.ForeignHeaderLosesMeaning` | src/audit_ledger.rs:69-98 | a file of three lines whose round has the counts 1 and 2 before the upgrade and 3 and 4 after it |
| `LedgerAppend.CleanIsClean` | src/audit_ledger.rs:145-151 | a cleaned cell holds no pipe, no line break and no white space at its ends |
| `LedgerWriting.CleanMeans` | src/audit_ledger.rs:145-151 | white space alone cleans to nothing, a word to itself with slashes for pipes, and two texts parted by white space to their cleaned forms with one blank between them |
| `LedgerAppend.RowSplits` | src/audit_ledger.rs:24-33 | the printed round row splits into exactly the nine cells it was made of |
| `LedgerAppend.RowReadsBack` | src/ledger.rs:176-201 | the row is read as its round if and only if no cell says "round"; otherwise no round is read from it |
| `LedgerRoundTrip.AppendOfHeaderAddsNothing` | src/audit_ledger.rs:20-50 | an append one of whose cells reads "round" leaves a text that reads as before, where nothing is read behind the place of the row |
| `LedgerRoundTrip.LedgerFile.NextRoundNumber` | src/audit_ledger.rs:106-118 | refines the next number, which the following lemma describes; wraps at 64 bits |
| `LedgerWriting.NextMeans` | src/audit_ledger.rs:106-118 | one more than the largest number that a line of the form "| R<number> |" carries; 1 while the placeholder is there or no line carries one above 0 |
| `LedgerRoundTrip.LedgerFile.InsertRoundRow` | src/audit_ledger.rs:120-131 | the row goes behind the last line that starts a round, or to the end |
| `LedgerWriting.InsertMeans` | src/audit_ledger.rs:120-131 | the row stands behind the last line that starts with "| R", all other lines in place |
| `LedgerWriting.AppendMeans` | src/audit_ledger.rs:20-41 | with the placeholder in the upgraded text the row replaces its first occurrence and nothing else; without it the row is inserted |
| `LedgerRoundTrip.LedgerFile.Append` | src/audit_ledger.rs:20-50 | the file changes only if the updated text can be read and has a round; the label, verdict and diagnosis returned are those of the new text |
| `LedgerRoundTrip.AppendRoundTrip` | src/audit_ledger.rs:20-50 | parsing what append wrote gives the old rounds and then one round with the given counts, the cleaned auditors and coverage and the new label |
| `LedgerAppends.LabelGivesNumber` | src/audit_ledger.rs:106-112 | a line that carries a label, in whatever padding, contributes that label's number |
| `LedgerAppends.LabelIsFresh` | src/audit_ledger.rs:106-118 | the label of an appended round is carried by no round read before, both where the row replaces the placeholder and where it follows the last round |
| `LedgerGrowth.RowIsNoPlaceholder` | src/audit_ledger.rs:34-39 | no printed round row, indented or not, contains the placeholder |
| `LedgerRuns.AppendKeepsReady` | src/audit_ledger.rs:20-50 | an append leaves a ledger that takes the next append, with one round more |
| `LedgerRuns.ManyAppendsRoundTrip` | src/audit_ledger.rs:20-50 | any number of appends reads back as the earlier rounds followed by the inputs, labelled from the next number on |
| `LedgerEmpty.AppendsToEmptyLedger` | src/audit_ledger.rs:20-50 | n appends to a ledger whose table holds only the placeholder, with any text before, around and behind it, read back as rounds R1 to Rn with the n inputs in order |
| `LedgerEmpty.HeaderAppendedToEmptyLedger` | src/audit_ledger.rs:41-44 | a first append that reads "round" would leave a text without any round, which append refuses |
| `LedgerTemplate.AppendsToTemplate` | templates/audit-ledger.md:1-44 | the file that is created for a new ledger is such a ledger, so n appends to it read back as R1 to Rn |
| `LedgerTemplate.AppendToNewLedger` | src/audit_ledger.rs:20-61 | the first append where there is no file: the round R1 with the given input, or no observation and the bare template |
| `DecisionTally.KeyTellsVote` | src/decision.rs:552-558 | two votes have one key if and only if they ask for the same thing |
| `DecisionTally.TallyVotes` | src/decision.rs:495-537 | refines the declarative tally: filters for the partition, the best key by multiplicity and key order for the pick |
| `DecisionTally.MaxEntry` | src/decision.rs:515-518 | the pick is the best entry of the count map in whatever order its entries come |
| `DecisionTally.VotesPartitionInOrder` | src/decision.rs:495-504 | valid and invalid votes are what the input holds at two increasing lists of positions that share out all positions, by validity |
| `TallyMeaning.ValidVotesAre` | src/decision.rs:495-504 | a vote counts if and only if its task is known, or no list of tasks is given, or its pattern is one of the five, or it calls for a human; both parts in order |
| `DecisionTally.PickIsLeastOfTheMostVoted` | src/decision.rs:505-518 | the pick is carried by as many valid votes as its count says; every other picked key has fewer, or as many and comes later; there is no pick exactly when no valid vote picks anything |
| `TallyMeaning.WinnerIsMostBacked` | src/decision.rs:505-518 | the pick is of what most valid votes ask for, and between two with as many votes the one whose key is first in the dictionary |
| `TallyMeaning.CountsMean` | src/decision.rs:519-537 | two votes are a majority; information is needed exactly without one or with a valid call for a human, of which all are counted |
| `TallyMeaning.MinorityIs` | src/decision.rs:519-525 | the minority are, in order, the valid votes that do not ask for the pick |
| `DecisionTally.MajorityPlusMinority` | src/decision.rs:509-525 | majority count and minority size add up to the valid votes |
| `DecisionTally.HumanVotesAreMinority` | src/decision.rs:505-525 | a valid call for a human is always in the minority, so looking for the veto there misses none |
| `DecisionTally.TallyIgnoresOrder` | src/decision.rs:495-537 | permuting the votes changes no pick and no count, and permutes the parts |
| `Decision.CountFamilies` | src/decision.rs:624-633 | true if and only if two of the sources belong to different families |
| `Decision.HasMinimumValidReviewers` | src/decision.rs:601-613 | true if and only if two jobs that finished with a reply that is not blank belong to different families |
| `DecisionMeaning.FamilyMeans` | src/audit.rs:144-166 | the family of a runner is that of the first of the ten names, in their order, that its lower-case form contains |
| `DecisionMeaning.TwoReviewersMean` | src/decision.rs:601-613 | two jobs that are done, each with a character of its reply that is not white, come from different families |
| `Decision.MergeCandidates` | src/decision.rs:311-336 | refines the concatenation, per finished job, of its listed or else replied candidates, sources filled in |
| `DecisionMeaning.CandidatesAre` | src/decision.rs:311-336 | the candidates are, job by job in order, what each finished job lists or else replies, with the runner for a blank source |
| `Decision.FillMissingSources` | src/decision.rs:377-383 | blank sources become the runner, other votes stay as they are |
| `Decision.DivergePhase` | src/decision.rs:286-305 | refines the pool of valid and invalid candidates |
| `DecisionMeaning.PoolIs` | src/decision.rs:286-305 | the pool takes exactly the candidates for a task of the universe, or of the given list where that is empty, for one of the five patterns, or for a human, in order, and keeps the others apart |
| `Decision.RunDirectionPhases` | src/decision.rs:258-284 | which ids restrict the vote, which pool is kept and when the fallback reason is given |
| `DecisionMeaning.VotableTasksAre` | src/decision.rs:258-284 | the vote is restricted to the tasks of the pool exactly if two of its candidates come from different families; otherwise the given list holds, and a divergence has fallen back |
| `Decision.MergeFindings` | src/decision.rs:560-599 | refines the findings per finished job, attributed to it; a reply without findings is one finding |
| `DecisionMeaning.FindingsAre` | src/decision.rs:560-599 | the findings are, job by job in order and with multiplicity, what each finished job contributes: what it lists, else the sound ones of its list, else those of its reply, else its reply as one medium finding unless blank; the source is the runner where none was given |
| `DecisionMeaning.FindingIffContributed` | src/decision.rs:560-599 | a finding is handed on if and only if some job contributes it |
| `Decision.RunDecision` | src/decision.rs:147-252 | refines the gated decision that the lemmas below are about |
| `DecisionMeaning.GatesAre` | src/decision.rs:147-225 | which gate stops a request: a budget below 18000 tokens a round, a recorded escalate point, votes of one family, replies of one family, in this order, and the whole outcome of each |
| `DecisionMeaning.OutcomeIs` | src/decision.rs:147-252 | the payload of each track field by field, all findings of the reviews among them, the auditors, the cost and the recorded key |
| `DecisionMeaning.DissentIs` | src/decision.rs:60-252 | what is left to the host: all findings on the review tracks, and minority, invalid votes, invalid candidates and calls for a human on the direction tracks |
| `DecisionMeaning.StatusIs` | src/decision.rs:647-665 | past the gates a review converges, and a direction exactly with two votes for one pick and no valid call for a human |
| `Decision.ConvergedExactlyWhen` | src/decision.rs:147-252 | a decision converges if and only if the budget covers all rounds, the escalate point is new, the valid votes come from two families, two of them agree, none calls for a human, and, on the review track, two families replied |
| `Decision.StatusFollowsTheTally` | src/decision.rs:647-665 | a human is needed exactly when a gate stops the request; otherwise information is needed exactly when the tally says so |
| `Decision.PickedTaskWasProposed` | src/decision.rs:258-305 | with the pool in use a picked task was proposed by a candidate of the pool and is a known task id |
| `Decision.RecordedExactlyWhen` | src/decision.rs:147-252 | an escalate point is recorded if and only if the request was affordable and the point new |
| `Decision.RecordedPointsAreRefused` | src/decision.rs:166-181 | a recorded point is never decided again |
| `Decision.ReviewsDoNotInterfere` | src/decision.rs:147-252 | review results that agree on runner, status and blankness of the reply give equal status, direction payload, dispatch list, cost and recorded key, whatever they say |
| `Decision.VoteOrderDoesNotMatter` | src/decision.rs:147-252 | permuting the direction votes changes neither status nor pick nor counts |
| `DispatchWindows.RunState.FindFromEnd` | src/agent_turn.rs:274-276 | the last record that satisfies the condition |
| `DispatchWindows.RunState.PersistDispatchWindow` | src/dispatch_goal.rs:423-457 | reopens the last record of the pair that is not cleaned, or adds an active one |
| `DispatchWindows.RunState.RetainDispatchWindow` | src/dispatch_goal.rs:486-504 | the last active record with the window id becomes retained, and nothing else changes |
| `DispatchWindows.RunState.RetainLatestDispatchWindow` | src/dispatch_goal.rs:571-590 | refines the retention of the last active record's window |
| `DispatchWindows.RunState.FinishDispatchWindow` | src/agent_turn.rs:263-370 | the one record it changes, its new status and the error it raises, for every backend, return code and outcome of the close |
| `DispatchWindows.RunState.RetainActiveAfterCleanupError` | src/agent_turn.rs:219-239 | the last active record of the pair becomes retained with the error as reason |
| `DispatchWindows.RunState.CompleteTurn` | src/agent_turn.rs:79-217 | refines a report: only a completion claimed for a named run settles its window, with the effective return code, and what an error left active is retained |
| `DispatchWindows.OperationChangesOneRecord` | src/dispatch_goal.rs:423-504 | every operation keeps the invariants and adds one record, changes one that is not cleaned, or changes nothing |
| `DispatchWindows.RunsFromNothing` | src/dispatch_goal.rs:423-590 | over every run each pair of window and runner has at most one record that is not cleaned, and every status agrees with time and reason |
| `DispatchWindows.CleanedIsForever` | src/agent_turn.rs:352-354 | a cleaned record never changes again in any run |
| `DispatchWindows.CleanedExactlyWhen` | src/agent_turn.rs:281-355 | an active record ends cleaned if and only if it can be closed, the return code is 0, the opt-in was given and the close does not fail; otherwise retained |
| `DispatchMeaning.CleanedByAReport` | src/agent_turn.rs:263-370 | every cleaned record of a run was cleaned by the report of a completed dispatch for its pair with return code 0 and a close that worked, and the last dispatch of the pair before that report asked for the close and gave the record its fields |
| `DispatchWindows.ReportSettles` | src/agent_turn.rs:174-370 | a report settles the one active record of its pair and only that one |
| `DispatchWindows.ReportLeavesNothingActive` | src/agent_turn.rs:174-370 | after a report no record of the pair is active and records of other pairs are as they were |
| `DispatchWindows.RepeatedReportChangesNothing` | src/agent_turn.rs:274-279 | a second report for the pair, with whatever return code and close, changes nothing |
| `DispatchWindows.NewestIsRetained` | src/dispatch_goal.rs:571-590 | going through the window id still retains exactly the last active record |
| `DispatchWindows.RetainHitsPairExactlyWhen` | src/dispatch_goal.rs:486-504 | a retention by window id reaches a given active record if and only if no later active record has that id |
| `DispatchMeaning.DispatchMeans` | src/dispatch_goal.rs:423-457 | after a dispatch the pair has one record that is not cleaned, active, with every field of the dispatch, the opt-in included: the one it had, with its time of creation, or a new one at the end |
| `DispatchMeaning.OpenRecordHoldsLastDispatch` | src/dispatch_goal.rs:423-457 | in every run a record that is not cleaned holds what the last dispatch of its pair gave |
| `DispatchMeaning.RetainMeans` | src/dispatch_goal.rs:486-504 | the last active record with the id becomes retained with time and reason; its other fields and all other records stay |
| `DispatchMeaning.ReportMeans` | src/agent_turn.rs:79-370 | which turns settle which record, and what becomes of it: retained for exactly one of seven reasons, or cleaned where there is none, all else unchanged |
| `DispatchMeaning.FinishedMeans` | src/agent_turn.rs:263-370 | the error a close raises, for every reason, and when it leaves the record active |
| `CanonicalJson.EscapedReadsBack` | src/llm_judge.rs:390-390 | reading an escaped string by section 7 of RFC 8259 gives the string and stops at the closing quote |
| `JsonRoundTrip.SortThenPrint` | src/llm_judge.rs:399-414 | sorting the keys first or printing the fields first gives the same text |
| `JsonRoundTrip.ReadPrinted` | src/llm_judge.rs:385-416 | in any surroundings a reader takes exactly the printed value off the front of a text, at any depth |
| `JsonRoundTrip.DecodeOfPrint` | src/llm_judge.rs:385-416 | decoding the text of a well-formed value gives that value with its keys in order |
| `JsonMeaning.PrintOfCanon` | src/llm_judge.rs:385-416 | the text is that of the value with all its keys in order |
| `JsonText.PrintedKeysGoUp` | src/llm_judge.rs:399-401 | read back, the keys of every object in a printed value ascend in dictionary order, at every depth |
| `TextMeaning.BeforeMeans` | src/llm_judge.rs:401-401 | one string is before another if and only if they agree up to some place where it ends or has the smaller character |
| `JsonText.PrintsObjects` | src/llm_judge.rs:402-414 | fields in key order stand between braces, each as its quoted key, ": " and its value, with ", " between them |
| `JsonText.PrintsArrays` | src/llm_judge.rs:391-398 | items stand between brackets with ", " between them |
| `JsonText.PrintsStrings` | src/llm_judge.rs:390-390 | a string is printed character by character between quotes, with the escapes of RFC 8259 |
| `JsonMeaning.DecodeKeepsMeaning` | src/llm_judge.rs:385-416 | what is decoded means what was printed |
| `JsonMeaning.SameTextExactlyWhenSameMeaning` | src/llm_judge.rs:385-416 | two values have one canonical text if and only if they differ at most in the order of object keys |
| `ShellQuote.QuotedValueIsLiteral` | src/process.rs:37-39 | wherever a word may be, the quoted value adds exactly its characters to it and leaves the reader outside quotes |
| `ShellQuote.QuotedIsOneWord` | src/process.rs:37-39 | the quoted value is read as one command of one word equal to the value, for every character sequence |
| `ShellQuote.QuoteMeans` | src/process.rs:37-39 | a value without single quotes stands between two; at a single quote the value is parted, both parts are quoted and an escaped quote stands between them |
| `ShellQuote.QuotedBehindText` | src/process.rs:37-39 | behind a blank in a longer line, earlier commands included, the quoted value and what follows it are read as if they stood alone |
| `ShellQuote.CommandLineReadsBack` | src/process.rs:37-39 | quoted arguments joined by blanks are read back as the arguments |
| `ShellQuote.NestingReadsBack` | src/process.rs:37-39 | quoting a command line again and again is undone by as many shells |
| `ShellQuote.CleanupCommandReads` | src/agent_turn.rs:310-314 | the line that closes a tmux window is a pause and one command whose words are the program, kill-window, -t and the window id, whatever program and id hold |
| `Reliability.GroupEntries` | src/autonomous_gate.rs:69-82 | refines the grouping by slot and completion id, the last report winning |
| `Reliability.CountFailures` | src/autonomous_gate.rs:99-107 | refines the number of failures and of failures at the end |
| `Reliability.RecentCompletions` | src/autonomous_gate.rs:86-98 | refines the last completed samples in time order |
| `Reliability.AssessRecentReliability` | src/autonomous_gate.rs:61-140 | refines the assessment the laws below are about |
| `ReliabilityLaws.FailsExactlyWhen` | src/autonomous_gate.rs:61-140 | the gate fails if and only if the recent completions of some slot breach the rate, or the streak where they are too few |
| `ReliabilityLaws.FirstBreachIsReported` | src/autonomous_gate.rs:85-139 | the failure names the first breaching slot in slot order, and the warnings are those of the slots up to it |
| `ReliabilityLaws.RecentAreTheLatest` | src/autonomous_gate.rs:86-98 | at most the window, all completed, and every completed sample left out is earlier than all of them |
| `ReliabilityMeaning.FiledIsLastReport` | src/autonomous_gate.rs:69-82 | what counts for a slot and a completion is its last report for that slot |
| `ReliabilityMeaning.RecentMeans` | src/autonomous_gate.rs:86-98 | the window lists, by time, event, run and completion, the latest reports whose outcome counts, all of them if they are fewer than the window |
| `ReliabilityMeaning.GateMeans` | src/autonomous_gate.rs:61-140 | the answer: slots with entries are judged by runner, model and task type, each by its window, up to the first that fails by rate or streak; the warnings are those of all slots judged |
| `ReliabilityLaws.OrderDoesNotMatter` | src/autonomous_gate.rs:69-82 | only which completions are reported for which slots counts, not their order or entries, if repeated reports agree |
| `ReliabilityLaws.AlteredWindowIff` | src/autonomous_gate.rs:86-98 | altering one sample of a slot leaves its recent completions as they are if and only if the sample was, and stays, outside the window, by age or by an outcome that does not count |
| `ReliabilityLaws.OldCompletionsDoNotMatter` | src/autonomous_gate.rs:69-98 | altering one report among the entries, in time, outcome or event, does not change the assessment if a later report overrules it or its sample was and stays outside the window |
| `Notify.StepKeepsInv` | src/notify.rs:82-147 | every step of every waiter, crashes included, keeps the registry invariant |
| `Notify.SectionsExclude` | src/notify.rs:108-147 | at most one waiter is in its critical section, and a crash inside it frees the lock |
| `Notify.FileBetweenSections` | src/notify.rs:50-147 | whenever the lock is free the file holds exactly one entry per live registered waiter, and any other entry is of a crashed one |
| `Notify.FileWithoutCrashes` | src/notify.rs:50-147 | without crashes the file then holds the registered waiters and no others |
| `Notify.EditIsWritten` | src/notify.rs:93-133 | a waiter that deregisters always finds its entry |
| `Notify.RenameAppliesTheEdit` | src/notify.rs:108-133 | no edit is lost: a rename applies its waiter's edit to the list as it then is |
| `Notify.EditMeans` | src/notify.rs:82-101 | an edit keeps the entries of the others in order and adds its own at the end or drops it; only a removal that finds none leaves the file alone |
| `Notify.WaiterTakesItsTurn` | src/notify.rs:82-147 | whenever the lock is free a fresh waiter can register, and a registered one deregister, by steps of its own, after which its edit is in the file and nobody else has moved |
| `Notify.WakerReadsOneInstant` | src/notify.rs:153-188 | a waker without the lock reads the complete list of the moment it opened the file, whatever happens until it reads |
| `Notify.EndpointList.AddEndpoint` | src/notify.rs:82-91 | replaces the waiter's own entry and keeps the others in order; always written back |
| `Notify.EndpointList.RemoveEndpoint` | src/notify.rs:93-101 | drops the waiter's entry; written back exactly if one went away |

## Left out

- The process, executable-name and age tests behind the staleness of a lock
  (`src/events.rs:486-640`): the sound oracle above stands for them.
- Torn appends, partly written counters, timeouts, sleeping and the wall clock: an attempt
  that times out takes no step, and a wait is given the states of the log it polls.
- Redaction, timestamps and the other fields of an event: an event is its id, type and
  summary.
- EventStore.WaitFor: the polls are a finite list of log states, so when a poll happens and
  when the timeout strikes is not modelled.
- LedgerRoundTrip.LedgerFile.NextRoundNumber: adds with wrap-around at 64 bits, as a release
  build does; a debug build stops there.
- LedgerTemplate.AppendsToTemplate: the headings up to the register of blockers and both tables
  are those of `templates/audit-ledger.md`; its other lines are any lines without pipes, and
  behind the register any lines outside the summary that are no round rows.
- JSON deserialisation of votes and findings: what the readers make of a job's output is
  given with the job, so `Decision.Reading` is data.
- Decision.DivergePhase: the sources of a pool are a set, not the ascending list of it.
- The Markdown briefs of a decision, and the sentences of dissent reasons, which are
  constructors of `Decision.Reason`.
- `src/decision.rs` multiplies cost with saturation; at most three rounds of 18000 tokens
  cannot saturate, so the model multiplies.
- The terminal backends: closing a window only succeeds, finds it missing or fails.
- Concurrent edits of the run state by two commands, and saves that fail.
- DispatchWindows.RunState.FinishDispatchWindow: the wording of reasons and the emitted
  events; reasons are constructors of `DispatchWindows.Reason`.
- How serde_json prints a number: a number is its text, of characters a number may have.
- ShellQuote.QuotedBehindText: the reader knows blanks, backslashes, single quotes and
  semicolons; a text around the value that uses other operators, expansions, patterns,
  comments or double quotes is not read.
- Rates are rationals: `Reliability.RateBreached` divides without rounding.
- Failing writes of the endpoint file, ports that are reused, and the connection that wakes
  a waiter.
- The scheduler, telemetry, budget, plugin and worktree code, command-line parsing and
  printing: mostly single branches that would add easy members.
