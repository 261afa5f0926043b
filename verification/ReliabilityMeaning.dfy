/**
The answer of the reliability gate, told by the reports it is given: their order, the
window of each slot, and the judgement of the slots in turn.
*/
module ReliabilityMeaning {
  import opened Common
  import opened Selections
  import opened TextMeaning
  import opened Reliability
  import opened ReliabilityLaws

  // ---------- samples ----------

  predicate Fails(s: Sample) {
    s.status == Failed || s.status == Timeout || s.status == RateLimited || s.status == QuotaExhausted
  }

  predicate Counts(s: Sample) {
    s.status.Ok? || Fails(s)
  }

  /** By runner, then by model, then by task type. */
  ghost predicate SlotEarlier(a: Slot, b: Slot) {
    || GoesBefore(a.runner, b.runner)
    || (a.runner == b.runner && GoesBefore(a.model, b.model))
    || (a.runner == b.runner && a.model == b.model && GoesBefore(a.taskType, b.taskType))
  }

  /** By time, then by event, then by run, then by completion. */
  ghost predicate Earlier(a: Sample, b: Sample) {
    || GoesBefore(a.at, b.at)
    || (a.at == b.at && a.eventId < b.eventId)
    || (a.at == b.at && a.eventId == b.eventId && GoesBefore(a.runId, b.runId))
    || (a.at == b.at && a.eventId == b.eventId && a.runId == b.runId && GoesBefore(a.completionId, b.completionId))
  }

  lemma SlotOrderMeans(a: Slot, b: Slot)
    ensures SlotBefore(a, b) <==> SlotEarlier(a, b)
  {
    BeforeMeans(a.runner, b.runner);
    BeforeMeans(a.model, b.model);
    BeforeMeans(a.taskType, b.taskType);
  }

  lemma TimeOrderMeans(a: Sample, b: Sample)
    ensures SampleBefore(a, b) <==> Earlier(a, b)
  {
    BeforeMeans(a.at, b.at);
    BeforeMeans(a.runId, b.runId);
    BeforeMeans(a.completionId, b.completionId);
  }

  // ---------- reports ----------

  predicate IsReport(entries: seq<Entry>, i: int, j: int, slot: Slot, id: string) {
    && 0 <= i < |entries| && entries[i].slot == slot
    && 0 <= j < |entries[i].recentCompletions| && entries[i].recentCompletions[j].completionId == id
  }

  /** The report at (i, j) is the last one of its completion for its slot. */
  ghost predicate IsLastReport(entries: seq<Entry>, i: int, j: int, slot: Slot, s: Sample) {
    && IsReport(entries, i, j, slot, s.completionId) && entries[i].recentCompletions[j] == s
    && forall k, l :: IsReport(entries, k, l, slot, s.completionId) ==> k < i || (k == i && l <= j)
  }

  ghost predicate IsReported(entries: seq<Entry>, slot: Slot, s: Sample) {
    exists i, j :: IsLastReport(entries, i, j, slot, s)
  }

  lemma {:induction false} LastAdded(group: map<string, Sample>, samples: seq<Sample>, id: string) returns (j: int)
    ensures -1 <= j < |samples|
    ensures j >= 0 ==> samples[j].completionId == id && id in AddAll(group, samples)
                       && AddAll(group, samples)[id] == samples[j]
    ensures j < 0 ==> (id in AddAll(group, samples) <==> id in group)
                      && (id in group ==> AddAll(group, samples)[id] == group[id])
    ensures forall l :: j < l < |samples| ==> samples[l].completionId != id
  {
    j := -1;
    if samples != [] {
      var n := |samples| - 1;
      if samples[n].completionId == id {
        j := n;
      } else {
        j := LastAdded(group, samples[..n], id);
        assert forall l :: 0 <= l < n ==> samples[..n][l] == samples[l];
      }
    }
  }

  lemma OneEntryMore(entries: seq<Entry>, i: int, j: int, slot: Slot, s: Sample)
    requires entries != [] && IsLastReport(entries[..|entries| - 1], i, j, slot, s)
    requires var last := entries[|entries| - 1];
      last.slot != slot || forall l :: 0 <= l < |last.recentCompletions| ==>
        last.recentCompletions[l].completionId != s.completionId
    ensures IsLastReport(entries, i, j, slot, s)
  {
    var before := entries[..|entries| - 1];
    forall k, l | IsReport(entries, k, l, slot, s.completionId)
      ensures k < i || (k == i && l <= j)
    {
      assert IsReport(before, k, l, slot, s.completionId);
    }
  }

  /** What is filed for a slot and an id is its last report. */
  lemma {:induction false} FiledIsLastReport(entries: seq<Entry>, slot: Slot, id: string) returns (i: int, j: int)
    requires slot in Grouped(entries) && id in Grouped(entries)[slot]
    ensures IsLastReport(entries, i, j, slot, Grouped(entries)[slot][id])
    ensures Grouped(entries)[slot][id].completionId == id
  {
    var n := |entries| - 1;
    var last, groups := entries[n], Grouped(entries[..n]);
    if last.slot == slot {
      i := n;
      j := LastAdded(GroupOf(groups, slot), last.recentCompletions, id);
      if j < 0 {
        i, j := FiledIsLastReport(entries[..n], slot, id);
        OneEntryMore(entries, i, j, slot, groups[slot][id]);
      }
    } else {
      i, j := FiledIsLastReport(entries[..n], slot, id);
      OneEntryMore(entries, i, j, slot, groups[slot][id]);
    }
  }

  /** The other way round: every last report is filed. */
  lemma ReportIsFiled(entries: seq<Entry>, slot: Slot, s: Sample)
    requires IsReported(entries, slot, s)
    ensures slot in Grouped(entries) && s.completionId in Grouped(entries)[slot]
    ensures Grouped(entries)[slot][s.completionId] == s
  {
    var i, j :| IsLastReport(entries, i, j, slot, s);
    GroupedMeans(entries, slot);
    assert s in entries[i].recentCompletions;
    assert Holds(entries, slot, s);
    var k, l := FiledIsLastReport(entries, slot, s.completionId);
    assert k == i && l == j;
  }

  lemma CompletedMeans(entries: seq<Entry>, slot: Slot, s: Sample)
    requires slot in Grouped(entries)
    ensures s in Completed(Grouped(entries)[slot]) <==> IsReported(entries, slot, s) && Counts(s)
  {
    var group := Grouped(entries)[slot];
    if s in Completed(group) {
      var id :| id in group && group[id] == s;
      var i, j := FiledIsLastReport(entries, slot, id);
    }
    if IsReported(entries, slot, s) && Counts(s) {
      ReportIsFiled(entries, slot, s);
      assert IsCompletedOutcome(group[s.completionId].status);
    }
  }

  // ---------- the window ----------

  /** `recent` lists in order of time the latest `n` completions last reported for the slot,
      or all if there are fewer. */
  ghost predicate IsWindow(entries: seq<Entry>, slot: Slot, n: nat, recent: seq<Sample>) {
    && (forall i, j :: 0 <= i < j < |recent| ==> Earlier(recent[i], recent[j]))
    && (forall s :: s in recent ==> IsReported(entries, slot, s) && Counts(s))
    && |recent| <= n
    && (forall s, r :: IsReported(entries, slot, s) && Counts(s) && s !in recent && r in recent ==> Earlier(s, r))
    && (|recent| < n ==> forall s :: IsReported(entries, slot, s) && Counts(s) ==> s in recent)
  }

  lemma RecentMeans(entries: seq<Entry>, slot: Slot, n: nat)
    requires slot in Grouped(entries)
    ensures IsWindow(entries, slot, n, RecentOf(Grouped(entries)[slot], n))
  {
    var group := Grouped(entries)[slot];
    var recent, dom := RecentOf(group, n), Completed(group);
    GroupsAreFiled(entries);
    RecentAreTheLatest(group, n);
    forall s: Sample
      ensures s in dom <==> IsReported(entries, slot, s) && Counts(s)
    {
      CompletedMeans(entries, slot, s);
    }
    RecentIsAscending(group, n);
    forall s, r | s in dom && s !in recent && r in recent
      ensures Earlier(s, r)
    {
      var i :| 0 <= i < |recent| && recent[i] == r;
      assert SampleBefore(s, recent[i]);
      TimeOrderMeans(s, r);
    }
    if |recent| < n {
      AllOfThem(recent, dom);
    }
  }

  lemma RecentIsAscending(group: map<string, Sample>, n: nat)
    requires Filed(group)
    ensures var recent := RecentOf(group, n);
      forall i, j :: 0 <= i < j < |recent| ==> Earlier(recent[i], recent[j]) && recent[i] != recent[j]
  {
    var dom := Completed(group);
    CompletedIdsAreDistinct(group);
    SamplesAreOrdered(dom);
    SomeListing(dom, TimeOrder());
    var all, recent := Listing(dom, TimeOrder()), RecentOf(group, n);
    forall i, j | 0 <= i < j < |recent|
      ensures Earlier(recent[i], recent[j]) && recent[i] != recent[j]
    {
      var cut := |all| - |recent|;
      assert all[cut + i] in all && all[cut + j] in all;
      assert TimeOrder()(all[cut + i], all[cut + j]);
      TimeOrderMeans(recent[i], recent[j]);
    }
  }

  /** A list without repetition that is as long as a set holds all of it. */
  lemma {:induction false} AllOfThem(xs: seq<Sample>, dom: set<Sample>)
    requires |xs| == |dom| && forall i :: 0 <= i < |xs| ==> xs[i] in dom
    requires forall i, j :: 0 <= i < j < |xs| ==> xs[i] != xs[j]
    ensures forall s :: s in dom ==> s in xs
  {
    if xs != [] {
      AllOfThem(xs[1..], dom - {xs[0]});
      assert xs == [xs[0]] + xs[1..];
      assert forall s :: s in dom && s != xs[0] ==> s in dom - {xs[0]};
    }
  }

  // ---------- the judgement of a window ----------

  ghost predicate IsFailCount(recent: seq<Sample>, failed: nat) {
    exists at: seq<nat> ::
      |at| == failed && Increasing(at) && forall i: nat :: i in at <==> i < |recent| && Fails(recent[i])
  }

  predicate IsTrailing(recent: seq<Sample>, trailing: nat) {
    && trailing <= |recent| && (forall i :: |recent| - trailing <= i < |recent| ==> Fails(recent[i]))
    && (trailing < |recent| ==> !Fails(recent[|recent| - trailing - 1]))
  }

  lemma {:induction false} FailCountIs(recent: seq<Sample>) returns (at: seq<nat>)
    ensures |at| == FailedIn(recent) && Increasing(at)
    ensures forall i: nat :: i in at <==> i < |recent| && Fails(recent[i])
  {
    at := [];
    if recent != [] {
      var n := |recent| - 1;
      at := FailCountIs(recent[..n]);
      assert forall i :: 0 <= i < |at| ==> at[i] in at;
      if IsFailure(recent[n].status) {
        at := at + [n];
      }
    }
  }

  /** What is said about a slot with this window: that the rate of failures is too high where
      the window has enough samples, and elsewhere that too many failures end it. */
  function FailureIs(slot: Slot, n: nat, failed: nat, trailing: nat, limits: Limits): Option<Failure> {
    if n >= limits.minimumRateSamples then
      if n > 0 && failed as real / n as real >= limits.failureRateLimit then Some(RateTooHigh(slot, failed, n))
      else None
    else
      if trailing >= limits.coldFailureStreak then Some(ColdStreak(slot, trailing, n)) else None
  }

  lemma FailureMeans(slot: Slot, recent: seq<Sample>, limits: Limits)
    ensures FailureOf(slot, recent, limits) ==
      FailureIs(slot, |recent|, FailedIn(recent), TrailingFailures(recent), limits)
  {
  }

  ghost predicate IsJudged(
    slot: Slot, recent: seq<Sample>, limits: Limits, failure: Option<Failure>, warned: seq<Warning>)
  {
    exists failed: nat, trailing: nat ::
      && IsFailCount(recent, failed) && IsTrailing(recent, trailing)
      && failure == FailureIs(slot, |recent|, failed, trailing, limits)
      && warned == if trailing >= limits.warningStreak then [Warning(slot, trailing)] else []
  }

  lemma SlotIsJudged(slot: Slot, recent: seq<Sample>, limits: Limits)
    ensures IsJudged(slot, recent, limits, FailureOf(slot, recent, limits), WarningsOf(slot, recent, limits))
  {
    var at := FailCountIs(recent);
    FailureMeans(slot, recent, limits);
    assert IsFailCount(recent, FailedIn(recent)) && IsTrailing(recent, TrailingFailures(recent));
  }

  // ---------- the answer ----------

  /** The judgement of a slot with reports: the failure and the warnings its window gives. */
  ghost predicate SlotAnswer(
    entries: seq<Entry>, slot: Slot, limits: Limits, failure: Option<Failure>, warned: seq<Warning>)
  {
    exists recent :: IsWindow(entries, slot, limits.window, recent) && IsJudged(slot, recent, limits, failure, warned)
  }

  ghost predicate HasEntry(entries: seq<Entry>, slot: Slot) {
    exists i :: 0 <= i < |entries| && entries[i].slot == slot
  }

  function Joined(lists: seq<seq<Warning>>): seq<Warning> {
    if lists == [] then [] else lists[0] + Joined(lists[1..])
  }

  /** The slots `judged` are those with entries, in order, up to the first failure, which is
      the answer, with the warnings of all slots judged. */
  ghost predicate IsAnswer(
    entries: seq<Entry>, limits: Limits, answer: Assessment, judged: seq<Slot>, warned: seq<seq<Warning>>)
  {
    var n := |judged|;
    && (forall i, j :: 0 <= i < j < n ==> SlotEarlier(judged[i], judged[j]))
    && (forall i :: 0 <= i < n ==> HasEntry(entries, judged[i]))
    && |warned| == n && answer.warnings == Joined(warned)
    && (forall i :: 0 <= i < n ==>
          SlotAnswer(entries, judged[i], limits, if i == n - 1 then answer.failure else None, warned[i]))
    && (answer.failure == None ==> forall slot :: HasEntry(entries, slot) ==> slot in judged)
    && (answer.failure != None ==> n > 0)
    && (answer.failure != None ==>
          forall slot :: HasEntry(entries, slot) && slot !in judged ==> SlotEarlier(judged[n - 1], slot))
  }

  ghost function WarnedAt(slots: seq<Slot>, groups: Groups, limits: Limits): (r: seq<seq<Warning>>)
    requires forall slot :: slot in slots ==> slot in groups
    ensures |r| == |slots|
  {
    seq(|slots|, i requires 0 <= i < |slots| =>
      assert slots[i] in slots; WarningsOf(slots[i], RecentOf(groups[slots[i]], limits.window), limits))
  }

  lemma {:induction false} WarningsAreJoined(slots: seq<Slot>, groups: Groups, limits: Limits)
    requires forall slot :: slot in slots ==> slot in groups
    ensures WarningsFor(slots, groups, limits) == Joined(WarnedAt(slots, groups, limits))
    decreases |slots|
  {
    if slots != [] {
      WarningsAreJoined(slots[1..], groups, limits);
      assert WarnedAt(slots, groups, limits)[1..] == WarnedAt(slots[1..], groups, limits);
    }
  }

  lemma EntryMeans(entries: seq<Entry>, slot: Slot)
    ensures HasEntry(entries, slot) <==> slot in Grouped(entries)
  {
    GroupedMeans(entries, slot);
  }

  lemma WindowIsJudged(entries: seq<Entry>, slot: Slot, limits: Limits)
    requires slot in Grouped(entries)
    ensures var recent := RecentOf(Grouped(entries)[slot], limits.window);
      SlotAnswer(entries, slot, limits, FailureOf(slot, recent, limits), WarningsOf(slot, recent, limits))
  {
    RecentMeans(entries, slot, limits.window);
    SlotIsJudged(slot, RecentOf(Grouped(entries)[slot], limits.window), limits);
  }

  /** The slots are listed in ascending order. */
  lemma SlotsAscend(slots: seq<Slot>, groups: Groups)
    requires slots == SlotsOf(groups)
    ensures forall i, j :: 0 <= i < j < |slots| ==> SlotEarlier(slots[i], slots[j])
  {
    SlotsAreOrdered(groups.Keys);
    SomeListing(groups.Keys, SlotOrder());
    forall i, j | 0 <= i < j < |slots|
      ensures SlotEarlier(slots[i], slots[j])
    {
      assert SlotOrder()(slots[i], slots[j]);
      SlotOrderMeans(slots[i], slots[j]);
    }
  }

  /** The slots that are not judged come after the last one that is. */
  lemma NotJudged(entries: seq<Entry>, slots: seq<Slot>, n: nat, slot: Slot)
    requires slots == SlotsOf(Grouped(entries)) && HasEntry(entries, slot) && slot !in UpTo(slots, n)
    ensures n < |slots| && SlotEarlier(slots[n], slot)
  {
    SlotsAscend(slots, Grouped(entries));
    EntryMeans(entries, slot);
    var k :| 0 <= k < |slots| && slots[k] == slot;
    assert forall i :: 0 <= i < |UpTo(slots, n)| ==> slots[i] in UpTo(slots, n);
  }

  /** The slot at position `i` is judged, and nothing is found before position `n`. */
  lemma JudgedAt(entries: seq<Entry>, slots: seq<Slot>, limits: Limits, n: nat, i: nat)
    requires slots == SlotsOf(Grouped(entries)) && StopsAt(slots, Grouped(entries), limits, n)
    requires i < |slots| && i <= n
    ensures slots[i] in Grouped(entries) && HasEntry(entries, slots[i])
    ensures var recent := RecentOf(Grouped(entries)[slots[i]], limits.window);
      SlotAnswer(entries, slots[i], limits,
                 if i == n then FailureOf(slots[n], recent, limits) else None, WarningsOf(slots[i], recent, limits))
  {
    assert slots[i] in slots;
    EntryMeans(entries, slots[i]);
    WindowIsJudged(entries, slots[i], limits);
    if i < n {
      assert !SlotBreaches(Grouped(entries), slots[i], limits);
    }
  }

  /** What the gate answers: it judges the latest completions of the slots in turn, each by
      its last report, and stops at the first failure. */
  lemma GateMeans(entries: seq<Entry>, limits: Limits) returns (judged: seq<Slot>, warned: seq<seq<Warning>>)
    ensures IsAnswer(entries, limits, Assess(Grouped(entries), limits), judged, warned)
  {
    var groups := Grouped(entries);
    var slots := SlotsOf(groups);
    var n := FirstBreach(slots, groups, limits);
    FirstBreachStops(slots, groups, limits);
    ReliabilityLaws.FailureMeans(slots, groups, limits, []);
    WarningsMean(slots, groups, limits, []);
    judged := UpTo(slots, n);
    WarningsAreJoined(judged, groups, limits);
    warned := WarnedAt(judged, groups, limits);
    SlotsAscend(slots, groups);
    forall i: nat | i < |judged|
      ensures judged[i] == slots[i] && HasEntry(entries, judged[i])
      ensures SlotAnswer(entries, judged[i], limits,
                         if i == |judged| - 1 then Assess(groups, limits).failure else None, warned[i])
    {
      JudgedAt(entries, slots, limits, n, i);
    }
    forall slot | HasEntry(entries, slot) && slot !in judged
      ensures n < |slots| && SlotEarlier(slots[n], slot)
    {
      NotJudged(entries, slots, n, slot);
    }
  }
}
