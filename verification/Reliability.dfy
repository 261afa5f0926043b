/**
The sliding-window reliability gate of src/autonomous_gate.rs: completions are grouped by
slot, put in time order, and judged by a failure rate or, when there are few of them, by the
streak of failures they end in.
*/
module Reliability {
  import opened Common
  import opened Text

  datatype Outcome = Ok | Failed | Timeout | RateLimited | QuotaExhausted | Other(text: string)

  datatype Sample = Sample(completionId: string, runId: string, at: string, eventId: nat, status: Outcome)

  datatype Slot = Slot(runner: string, model: string, taskType: string)

  datatype Entry = Entry(slot: Slot, recentCompletions: seq<Sample>)

  datatype Limits = Limits(
    window: nat, minimumRateSamples: nat, failureRateLimit: real, coldFailureStreak: nat, warningStreak: nat)

  datatype Failure =
    | RateTooHigh(slot: Slot, failed: nat, recent: nat)
    | ColdStreak(slot: Slot, trailing: nat, recent: nat)

  datatype Warning = Warning(slot: Slot, trailing: nat)

  datatype Assessment = Assessment(failure: Option<Failure>, warnings: seq<Warning>)

  predicate IsCompletedOutcome(status: Outcome) {
    !status.Other?
  }

  predicate IsFailure(status: Outcome) {
    !status.Other? && !status.Ok?
  }

  // ---------- strict total orders ----------

  ghost predicate StrictOrder<T(!new)>(dom: set<T>, lt: (T, T) -> bool) {
    && (forall a, b :: a in dom && b in dom ==> (if a == b then !lt(a, b) else lt(a, b) != lt(b, a)))
    && (forall a, b, c :: a in dom && b in dom && c in dom && lt(a, b) && lt(b, c) ==> lt(a, c))
  }

  ghost predicate IsLeast<T(!new)>(x: T, dom: set<T>, lt: (T, T) -> bool) {
    x in dom && forall y :: y in dom && y != x ==> lt(x, y)
  }

  /** `xs` lists the set in strictly ascending order. */
  ghost predicate IsListing<T(!new)>(xs: seq<T>, dom: set<T>, lt: (T, T) -> bool) {
    && (forall i, j :: 0 <= i < j < |xs| ==> lt(xs[i], xs[j]))
    && (forall x :: x in xs <==> x in dom)
  }

  lemma {:induction false} SomeLeast<T(!new)>(dom: set<T>, lt: (T, T) -> bool) returns (x: T)
    requires dom != {} && StrictOrder(dom, lt)
    ensures IsLeast(x, dom, lt)
    decreases |dom|
  {
    x :| x in dom;
    var others := dom - {x};
    if others != {} {
      var y := SomeLeast(others, lt);
      x := LesserIsLeast(dom, lt, x, y);
    }
  }

  lemma LesserIsLeast<T(!new)>(dom: set<T>, lt: (T, T) -> bool, x: T, y: T) returns (z: T)
    requires StrictOrder(dom, lt) && x in dom && IsLeast(y, dom - {x}, lt)
    ensures IsLeast(z, dom, lt)
  {
    assert y in dom && x != y;
    z := if lt(x, y) then x else y;
    forall w | w in dom && w != z
      ensures lt(z, w)
    {
      if w != x && w != y {
        assert lt(y, w);
        assert lt(x, y) ==> lt(x, w);
      }
    }
  }

  ghost function Listing<T(!new)>(dom: set<T>, lt: (T, T) -> bool): seq<T> {
    if xs :| IsListing(xs, dom, lt) then xs else []
  }

  lemma LeastThenRest<T(!new)>(x: T, tail: seq<T>, dom: set<T>, lt: (T, T) -> bool)
    requires IsLeast(x, dom, lt) && IsListing(tail, dom - {x}, lt)
    ensures IsListing([x] + tail, dom, lt)
  {
    forall i | 0 <= i < |tail|
      ensures lt(x, tail[i])
    {
      assert tail[i] in tail;
    }
  }

  lemma {:induction false} SomeListing<T(!new)>(dom: set<T>, lt: (T, T) -> bool)
    requires StrictOrder(dom, lt)
    ensures IsListing(Listing(dom, lt), dom, lt)
    decreases |dom|
  {
    if dom == {} {
      assert IsListing([], dom, lt);
    } else {
      var x := SomeLeast(dom, lt);
      SomeListing(dom - {x}, lt);
      LeastThenRest(x, Listing(dom - {x}, lt), dom, lt);
    }
  }

  lemma ListingHead<T(!new)>(xs: seq<T>, dom: set<T>, lt: (T, T) -> bool)
    requires StrictOrder(dom, lt) && IsListing(xs, dom, lt) && xs != []
    ensures IsLeast(xs[0], dom, lt) && IsListing(xs[1..], dom - {xs[0]}, lt)
  {
    assert xs[0] in xs;
    forall y | y in dom && y != xs[0]
      ensures lt(xs[0], y) && y in xs[1..]
    {
      var i :| 0 <= i < |xs| && xs[i] == y;
      assert xs[1..][i - 1] == y;
    }
    assert forall i :: 0 <= i < |xs| - 1 ==> xs[1..][i] == xs[i + 1] && xs[i + 1] in xs;
  }

  lemma EmptyListing<T(!new)>(xs: seq<T>, dom: set<T>, lt: (T, T) -> bool)
    requires IsListing(xs, dom, lt)
    ensures xs == [] <==> dom == {}
  {
    if xs != [] {
      assert xs[0] in dom;
    } else {
      assert forall x :: x in dom ==> x in xs;
    }
  }

  lemma {:induction false} OneListing<T(!new)>(xs: seq<T>, ys: seq<T>, dom: set<T>, lt: (T, T) -> bool)
    requires StrictOrder(dom, lt) && IsListing(xs, dom, lt) && IsListing(ys, dom, lt)
    ensures xs == ys
    decreases |xs|
  {
    EmptyListing(xs, dom, lt);
    EmptyListing(ys, dom, lt);
    if xs != [] {
      ListingHead(xs, dom, lt);
      ListingHead(ys, dom, lt);
      OneListing(xs[1..], ys[1..], dom - {xs[0]}, lt);
    }
  }

  /** Lists a set by taking the least element that is left, again and again. */
  method ListInOrder<T(!new, ==)>(dom: set<T>, lt: (T, T) -> bool) returns (xs: seq<T>)
    requires StrictOrder(dom, lt)
    ensures xs == Listing(dom, lt) && IsListing(xs, dom, lt)
  {
    xs := [];
    var left := dom;
    while left != {}
      invariant left <= dom && IsListing(xs, dom - left, lt)
      invariant forall x, y :: x in xs && y in left ==> lt(x, y)
      decreases |left|
    {
      ghost var least := SomeLeast(left, lt);
      var x :| x in left && forall y :: y in left && y != x ==> lt(x, y);
      xs := xs + [x];
      left := left - {x};
    }
    SomeListing(dom, lt);
    assert dom - left == dom;
    OneListing(xs, Listing(dom, lt), dom, lt);
  }

  // ---------- the orders of slots and samples ----------

  /** Tuples in lexicographic order: `rest` decides where the strings are equal. */
  predicate FirstBefore(a: string, b: string, rest: bool) {
    if a == b then rest else Before(a, b)
  }

  predicate SlotBefore(a: Slot, b: Slot) {
    FirstBefore(a.runner, b.runner, FirstBefore(a.model, b.model, FirstBefore(a.taskType, b.taskType, false)))
  }

  predicate SampleBefore(a: Sample, b: Sample) {
    FirstBefore(a.at, b.at,
      a.eventId < b.eventId
      || (a.eventId == b.eventId
          && FirstBefore(a.runId, b.runId, FirstBefore(a.completionId, b.completionId, false))))
  }

  function SlotOrder(): (Slot, Slot) -> bool {
    (a, b) => SlotBefore(a, b)
  }

  function TimeOrder(): (Sample, Sample) -> bool {
    (a, b) => SampleBefore(a, b)
  }

  lemma TwoStrings(a: string, b: string)
    ensures a != b ==> Before(a, b) != Before(b, a)
  {
    if a != b {
      BeforeIsTotal(a, b);
    }
  }

  lemma ThreeStrings(a: string, b: string, c: string)
    requires a != b && b != c && Before(a, b) && Before(b, c)
    ensures a != c && Before(a, c)
  {
    BeforeIsTransitive(a, b, c);
    TwoStrings(a, b);
  }

  lemma TransitiveLink(a: string, b: string, c: string, ab: bool, bc: bool, ac: bool)
    requires FirstBefore(a, b, ab) && FirstBefore(b, c, bc) && (a == b == c && ab && bc ==> ac)
    ensures FirstBefore(a, c, ac)
  {
    if a != b && b != c {
      ThreeStrings(a, b, c);
    }
  }

  lemma SlotsAreOrdered(slots: set<Slot>)
    ensures StrictOrder(slots, SlotOrder())
  {
    forall a, b | a in slots && b in slots
      ensures if a == b then !SlotOrder()(a, b) else SlotOrder()(a, b) != SlotOrder()(b, a)
    {
      TwoStrings(a.runner, b.runner);
      TwoStrings(a.model, b.model);
      TwoStrings(a.taskType, b.taskType);
    }
    forall a, b, c | a in slots && b in slots && c in slots && SlotOrder()(a, b) && SlotOrder()(b, c)
      ensures SlotOrder()(a, c)
    {
      SlotsAreTransitive(a, b, c);
    }
  }

  lemma SlotsAreTransitive(a: Slot, b: Slot, c: Slot)
    requires SlotBefore(a, b) && SlotBefore(b, c)
    ensures SlotBefore(a, c)
  {
    var t1, t2, t3 := FirstBefore(a.taskType, b.taskType, false), FirstBefore(b.taskType, c.taskType, false),
                      FirstBefore(a.taskType, c.taskType, false);
    if t1 && t2 {
      TransitiveLink(a.taskType, b.taskType, c.taskType, false, false, false);
    }
    var m1, m2, m3 := FirstBefore(a.model, b.model, t1), FirstBefore(b.model, c.model, t2),
                      FirstBefore(a.model, c.model, t3);
    if m1 && m2 {
      TransitiveLink(a.model, b.model, c.model, t1, t2, t3);
    }
    TransitiveLink(a.runner, b.runner, c.runner, m1, m2, m3);
  }

  ghost predicate DistinctIds(samples: set<Sample>) {
    forall a, b :: a in samples && b in samples && a != b ==> a.completionId != b.completionId
  }

  lemma SamplesAreOrdered(samples: set<Sample>)
    requires DistinctIds(samples)
    ensures StrictOrder(samples, TimeOrder())
  {
    forall a, b | a in samples && b in samples
      ensures if a == b then !TimeOrder()(a, b) else TimeOrder()(a, b) != TimeOrder()(b, a)
    {
      TwoStrings(a.at, b.at);
      TwoStrings(a.runId, b.runId);
      TwoStrings(a.completionId, b.completionId);
    }
    forall a, b, c | a in samples && b in samples && c in samples && TimeOrder()(a, b) && TimeOrder()(b, c)
      ensures TimeOrder()(a, c)
    {
      SamplesAreTransitive(a, b, c);
    }
  }

  lemma SamplesAreTransitive(a: Sample, b: Sample, c: Sample)
    requires SampleBefore(a, b) && SampleBefore(b, c)
    ensures SampleBefore(a, c)
  {
    var i1, i2, i3 := FirstBefore(a.completionId, b.completionId, false),
                      FirstBefore(b.completionId, c.completionId, false),
                      FirstBefore(a.completionId, c.completionId, false);
    if i1 && i2 {
      TransitiveLink(a.completionId, b.completionId, c.completionId, false, false, false);
    }
    var r1, r2, r3 := FirstBefore(a.runId, b.runId, i1), FirstBefore(b.runId, c.runId, i2),
                      FirstBefore(a.runId, c.runId, i3);
    if r1 && r2 {
      TransitiveLink(a.runId, b.runId, c.runId, i1, i2, i3);
    }
    var e1, e2, e3 := a.eventId < b.eventId || (a.eventId == b.eventId && r1),
                      b.eventId < c.eventId || (b.eventId == c.eventId && r2),
                      a.eventId < c.eventId || (a.eventId == c.eventId && r3);
    TransitiveLink(a.at, b.at, c.at, e1, e2, e3);
  }

  // ---------- grouping ----------

  type Groups = map<Slot, map<string, Sample>>

  /** The samples of one slot, the last one given for each completion id. */
  function AddAll(group: map<string, Sample>, samples: seq<Sample>): map<string, Sample> {
    if samples == [] then group
    else
      var last := samples[|samples| - 1];
      AddAll(group, samples[..|samples| - 1])[last.completionId := last]
  }

  function GroupOf(groups: Groups, slot: Slot): map<string, Sample> {
    if slot in groups then groups[slot] else map[]
  }

  function Grouped(entries: seq<Entry>): Groups {
    if entries == [] then map[]
    else
      var last := entries[|entries| - 1];
      var groups := Grouped(entries[..|entries| - 1]);
      groups[last.slot := AddAll(GroupOf(groups, last.slot), last.recentCompletions)]
  }

  method GroupEntries(entries: seq<Entry>) returns (groups: Groups)
    ensures groups == Grouped(entries)
  {
    groups := map[];
    for i := 0 to |entries|
      invariant groups == Grouped(entries[..i])
    {
      assert entries[..i + 1][..i] == entries[..i];
      var entry := entries[i];
      var group := GroupOf(groups, entry.slot);
      for j := 0 to |entry.recentCompletions|
        invariant group == AddAll(GroupOf(groups, entry.slot), entry.recentCompletions[..j])
      {
        assert entry.recentCompletions[..j + 1][..j] == entry.recentCompletions[..j];
        var sample := entry.recentCompletions[j];
        group := group[sample.completionId := sample];
      }
      assert entry.recentCompletions[..|entry.recentCompletions|] == entry.recentCompletions;
      groups := groups[entry.slot := group];
    }
    assert entries[..|entries|] == entries;
  }

  /** Samples are filed under their own id. */
  ghost predicate Filed(group: map<string, Sample>) {
    forall id :: id in group ==> group[id].completionId == id
  }

  lemma {:induction false} AddAllFiles(group: map<string, Sample>, samples: seq<Sample>)
    requires Filed(group)
    ensures Filed(AddAll(group, samples))
  {
    if samples != [] {
      AddAllFiles(group, samples[..|samples| - 1]);
    }
  }

  lemma {:induction false} GroupsAreFiled(entries: seq<Entry>)
    ensures forall slot :: slot in Grouped(entries) ==> Filed(Grouped(entries)[slot])
  {
    if entries != [] {
      var groups := Grouped(entries[..|entries| - 1]);
      var last := entries[|entries| - 1];
      GroupsAreFiled(entries[..|entries| - 1]);
      AddAllFiles(GroupOf(groups, last.slot), last.recentCompletions);
    }
  }

  // ---------- one slot ----------

  function Completed(group: map<string, Sample>): set<Sample> {
    set id | id in group && IsCompletedOutcome(group[id].status) :: group[id]
  }

  function Recent(samples: seq<Sample>, window: nat): seq<Sample> {
    samples[if |samples| > window then |samples| - window else 0..]
  }

  ghost function RecentOf(group: map<string, Sample>, window: nat): seq<Sample> {
    Recent(Listing(Completed(group), TimeOrder()), window)
  }

  function FailedIn(samples: seq<Sample>): (n: nat)
    ensures n <= |samples|
  {
    if samples == [] then 0
    else FailedIn(samples[..|samples| - 1]) + if IsFailure(samples[|samples| - 1].status) then 1 else 0
  }

  function TrailingFailures(samples: seq<Sample>): (n: nat)
    ensures n <= |samples|
    ensures forall i :: |samples| - n <= i < |samples| ==> IsFailure(samples[i].status)
    ensures n < |samples| ==> !IsFailure(samples[|samples| - n - 1].status)
  {
    if samples == [] || !IsFailure(samples[|samples| - 1].status) then 0
    else 1 + TrailingFailures(samples[..|samples| - 1])
  }

  /** The rate over enough recent completions; without any the quotient is no number and
      nothing is breached. */
  predicate RateBreached(recent: seq<Sample>, limits: Limits) {
    && |recent| >= limits.minimumRateSamples && |recent| > 0
    && FailedIn(recent) as real / |recent| as real >= limits.failureRateLimit
  }

  predicate StreakBreached(recent: seq<Sample>, limits: Limits) {
    |recent| < limits.minimumRateSamples && TrailingFailures(recent) >= limits.coldFailureStreak
  }

  predicate Breached(recent: seq<Sample>, limits: Limits) {
    RateBreached(recent, limits) || StreakBreached(recent, limits)
  }

  function FailureOf(slot: Slot, recent: seq<Sample>, limits: Limits): Option<Failure> {
    if RateBreached(recent, limits) then Some(RateTooHigh(slot, FailedIn(recent), |recent|))
    else if StreakBreached(recent, limits) then Some(ColdStreak(slot, TrailingFailures(recent), |recent|))
    else None
  }

  function WarningsOf(slot: Slot, recent: seq<Sample>, limits: Limits): seq<Warning> {
    if TrailingFailures(recent) >= limits.warningStreak then [Warning(slot, TrailingFailures(recent))] else []
  }

  // ---------- all slots ----------

  /** The slots are judged in order, up to the first one that breaches a limit. */
  ghost function JudgeAll(slots: seq<Slot>, groups: Groups, limits: Limits, warnings: seq<Warning>): Assessment
    requires forall slot :: slot in slots ==> slot in groups
    decreases |slots|
  {
    if slots == [] then Assessment(None, warnings)
    else
      var recent := RecentOf(groups[slots[0]], limits.window);
      var warned := warnings + WarningsOf(slots[0], recent, limits);
      var failure := FailureOf(slots[0], recent, limits);
      if failure.Some? then Assessment(failure, warned) else JudgeAll(slots[1..], groups, limits, warned)
  }

  ghost function SlotsOf(groups: Groups): (slots: seq<Slot>)
    ensures forall slot :: slot in slots <==> slot in groups
  {
    SlotsAreOrdered(groups.Keys);
    SomeListing(groups.Keys, SlotOrder());
    Listing(groups.Keys, SlotOrder())
  }

  ghost function Assess(groups: Groups, limits: Limits): Assessment {
    JudgeAll(SlotsOf(groups), groups, limits, [])
  }

  lemma CompletedIdsAreDistinct(group: map<string, Sample>)
    requires Filed(group)
    ensures DistinctIds(Completed(group))
  {
  }

  method RecentCompletions(group: map<string, Sample>, window: nat) returns (recent: seq<Sample>)
    requires Filed(group)
    ensures recent == RecentOf(group, window)
  {
    CompletedIdsAreDistinct(group);
    SamplesAreOrdered(Completed(group));
    var samples := ListInOrder(Completed(group), TimeOrder());
    recent := Recent(samples, window);
  }

  method CountFailures(recent: seq<Sample>) returns (failed: nat, trailing: nat)
    ensures failed == FailedIn(recent) && trailing == TrailingFailures(recent)
  {
    failed := 0;
    for i := 0 to |recent|
      invariant failed == FailedIn(recent[..i])
    {
      assert recent[..i + 1][..i] == recent[..i];
      if IsFailure(recent[i].status) {
        failed := failed + 1;
      }
    }
    assert recent[..|recent|] == recent;
    trailing := 0;
    while trailing < |recent| && IsFailure(recent[|recent| - 1 - trailing].status)
      invariant trailing <= |recent|
      invariant TrailingFailures(recent) == trailing + TrailingFailures(recent[..|recent| - trailing])
    {
      var shorter := recent[..|recent| - trailing];
      assert shorter[..|shorter| - 1] == recent[..|recent| - trailing - 1];
      trailing := trailing + 1;
    }
  }

  /** The judgement of one slot: the failure that ends the assessment, if any, and the
      warning it gives. */
  method AssessSlot(slot: Slot, group: map<string, Sample>, limits: Limits)
      returns (failure: Option<Failure>, warned: seq<Warning>)
    requires Filed(group)
    ensures var recent := RecentOf(group, limits.window);
      failure == FailureOf(slot, recent, limits) && warned == WarningsOf(slot, recent, limits)
  {
    var recent := RecentCompletions(group, limits.window);
    var failed, trailing := CountFailures(recent);
    failure, warned := None, [];
    if trailing >= limits.warningStreak {
      warned := [Warning(slot, trailing)];
    }
    if |recent| >= limits.minimumRateSamples {
      if |recent| > 0 && failed as real / |recent| as real >= limits.failureRateLimit {
        failure := Some(RateTooHigh(slot, failed, |recent|));
      }
    } else if trailing >= limits.coldFailureStreak {
      failure := Some(ColdStreak(slot, trailing, |recent|));
    }
  }

  method AssessRecentReliability(entries: seq<Entry>, limits: Limits) returns (assessment: Assessment)
    ensures assessment == Assess(Grouped(entries), limits)
  {
    var groups := GroupEntries(entries);
    GroupsAreFiled(entries);
    SlotsAreOrdered(groups.Keys);
    var slots := ListInOrder(groups.Keys, SlotOrder());
    assert slots == SlotsOf(groups);
    var warnings := [];
    for i := 0 to |slots|
      invariant JudgeAll(slots, groups, limits, []) == JudgeAll(slots[i..], groups, limits, warnings)
    {
      assert slots[i..][1..] == slots[i + 1..] && slots[i] in slots;
      var failure, warned := AssessSlot(slots[i], groups[slots[i]], limits);
      warnings := warnings + warned;
      if failure.Some? {
        return Assessment(failure, warnings);
      }
    }
    return Assessment(None, warnings);
  }
}
