/**
What the reliability gate guarantees, and what does not change its answer.
*/
module ReliabilityLaws {
  import opened Common
  import opened Reliability

  // ---------- when the gate fails ----------

  ghost predicate SlotBreaches(groups: Groups, slot: Slot, limits: Limits) {
    slot in groups && Breached(RecentOf(groups[slot], limits.window), limits)
  }

  /** The warnings of the slots, in their order. */
  ghost function WarningsFor(slots: seq<Slot>, groups: Groups, limits: Limits): seq<Warning>
    requires forall slot :: slot in slots ==> slot in groups
    decreases |slots|
  {
    if slots == [] then []
    else
      WarningsOf(slots[0], RecentOf(groups[slots[0]], limits.window), limits)
      + WarningsFor(slots[1..], groups, limits)
  }

  /** The slots judged when the judgement stops at position `n`. */
  function UpTo(slots: seq<Slot>, n: nat): (r: seq<Slot>)
    ensures forall slot :: slot in r ==> slot in slots
  {
    if n < |slots| then slots[..n + 1] else slots
  }

  ghost predicate StopsAt(slots: seq<Slot>, groups: Groups, limits: Limits, n: nat) {
    && n <= |slots|
    && (forall i :: 0 <= i < n ==> !SlotBreaches(groups, slots[i], limits))
    && (n < |slots| ==> SlotBreaches(groups, slots[n], limits))
  }

  /** The position of the first slot that breaches a limit, or the number of slots. */
  ghost function FirstBreach(slots: seq<Slot>, groups: Groups, limits: Limits): nat
    decreases |slots|
  {
    if slots == [] || SlotBreaches(groups, slots[0], limits) then 0 else 1 + FirstBreach(slots[1..], groups, limits)
  }

  lemma {:induction false} FirstBreachStops(slots: seq<Slot>, groups: Groups, limits: Limits)
    ensures StopsAt(slots, groups, limits, FirstBreach(slots, groups, limits))
    decreases |slots|
  {
    if slots != [] && !SlotBreaches(groups, slots[0], limits) {
      FirstBreachStops(slots[1..], groups, limits);
      assert forall i :: 0 < i < |slots| ==> slots[1..][i - 1] == slots[i];
    }
  }

  lemma {:induction false} FailureMeans(slots: seq<Slot>, groups: Groups, limits: Limits, warnings: seq<Warning>)
    requires forall slot :: slot in slots ==> slot in groups
    ensures var n := FirstBreach(slots, groups, limits);
      && n <= |slots|
      && JudgeAll(slots, groups, limits, warnings).failure ==
           if n < |slots| then FailureOf(slots[n], RecentOf(groups[slots[n]], limits.window), limits) else None
    decreases |slots|
  {
    if slots != [] {
      assert slots[0] in slots;
      var own := WarningsOf(slots[0], RecentOf(groups[slots[0]], limits.window), limits);
      FailureMeans(slots[1..], groups, limits, warnings + own);
    }
  }

  lemma UpToInParts(slots: seq<Slot>, m: nat)
    requires slots != []
    ensures UpTo(slots, 0) == [slots[0]] && UpTo(slots, m + 1) == [slots[0]] + UpTo(slots[1..], m)
  {
  }

  lemma WarningsOfBreach(slots: seq<Slot>, groups: Groups, limits: Limits)
    requires slots != [] && slots[0] in groups && SlotBreaches(groups, slots[0], limits)
    ensures WarningsFor(UpTo(slots, 0), groups, limits) ==
      WarningsOf(slots[0], RecentOf(groups[slots[0]], limits.window), limits)
  {
    UpToInParts(slots, 0);
    assert [slots[0]] + [] == [slots[0]];
    WarningsInParts(slots[0], [], groups, limits);
  }

  lemma WarningsBeforeBreach(slots: seq<Slot>, groups: Groups, limits: Limits, m: nat)
    requires slots != [] && slots[0] in groups && forall slot :: slot in slots[1..] ==> slot in groups
    ensures WarningsFor(UpTo(slots, m + 1), groups, limits) ==
      WarningsOf(slots[0], RecentOf(groups[slots[0]], limits.window), limits)
        + WarningsFor(UpTo(slots[1..], m), groups, limits)
  {
    UpToInParts(slots, m);
    WarningsInParts(slots[0], UpTo(slots[1..], m), groups, limits);
  }

  lemma {:induction false} WarningsMean(slots: seq<Slot>, groups: Groups, limits: Limits, warnings: seq<Warning>)
    requires forall slot :: slot in slots ==> slot in groups
    ensures JudgeAll(slots, groups, limits, warnings).warnings ==
      warnings + WarningsFor(UpTo(slots, FirstBreach(slots, groups, limits)), groups, limits)
    decreases |slots|
  {
    if slots != [] {
      assert slots[0] in slots;
      var own := WarningsOf(slots[0], RecentOf(groups[slots[0]], limits.window), limits);
      if SlotBreaches(groups, slots[0], limits) {
        WarningsOfBreach(slots, groups, limits);
      } else {
        WarningsMean(slots[1..], groups, limits, warnings + own);
        WarningsBeforeBreach(slots, groups, limits, FirstBreach(slots[1..], groups, limits));
      }
    }
  }

  lemma WarningsInParts(first: Slot, others: seq<Slot>, groups: Groups, limits: Limits)
    requires first in groups && forall slot :: slot in others ==> slot in groups
    ensures WarningsFor([first] + others, groups, limits) ==
      WarningsOf(first, RecentOf(groups[first], limits.window), limits) + WarningsFor(others, groups, limits)
  {
    assert ([first] + others)[1..] == others;
  }

  /** The gate fails exactly when the recent completions of some slot breach the rate, or
      the streak where there are too few of them for a rate. */
  lemma FailsExactlyWhen(entries: seq<Entry>, limits: Limits)
    ensures var groups := Grouped(entries);
      Assess(groups, limits).failure.Some? <==> exists slot :: SlotBreaches(groups, slot, limits)
  {
    var groups := Grouped(entries);
    var slots := SlotsOf(groups);
    FirstBreachStops(slots, groups, limits);
    FailureMeans(slots, groups, limits, []);
    if slot :| SlotBreaches(groups, slot, limits) {
      var i :| 0 <= i < |slots| && slots[i] == slot;
    }
  }

  ghost predicate ListsUpTo(judged: seq<Slot>, groups: Groups, last: Slot) {
    && (forall i, j :: 0 <= i < j < |judged| ==> SlotBefore(judged[i], judged[j]))
    && (forall slot :: slot in judged <==> slot in groups && (slot == last || SlotBefore(slot, last)))
  }

  /** The failure names the first slot, in slot order, that breaches a limit; the warnings
      are those of the slots up to it, in slot order. */
  lemma FirstBreachIsReported(entries: seq<Entry>, limits: Limits) returns (judged: seq<Slot>)
    requires Assess(Grouped(entries), limits).failure.Some?
    ensures var groups := Grouped(entries);
      var a := Assess(groups, limits);
      && SlotBreaches(groups, a.failure.value.slot, limits)
      && (forall slot :: SlotBreaches(groups, slot, limits) && slot != a.failure.value.slot ==>
            SlotBefore(a.failure.value.slot, slot))
      && ListsUpTo(judged, groups, a.failure.value.slot) && a.warnings == WarningsFor(judged, groups, limits)
  {
    var groups := Grouped(entries);
    var slots := SlotsOf(groups);
    SlotsAreOrdered(groups.Keys);
    SomeListing(groups.Keys, SlotOrder());
    var n := FirstBreach(slots, groups, limits);
    FirstBreachStops(slots, groups, limits);
    FailureMeans(slots, groups, limits, []);
    WarningsMean(slots, groups, limits, []);
    judged := UpTo(slots, n);
    PrefixListsUpTo(slots, groups, n);
    OthersBreachLater(slots, groups, limits, n);
    assert [] + WarningsFor(judged, groups, limits) == WarningsFor(judged, groups, limits);
  }

  lemma OthersBreachLater(slots: seq<Slot>, groups: Groups, limits: Limits, n: nat)
    requires IsListing(slots, groups.Keys, SlotOrder()) && StopsAt(slots, groups, limits, n) && n < |slots|
    ensures forall slot :: SlotBreaches(groups, slot, limits) && slot != slots[n] ==> SlotBefore(slots[n], slot)
  {
    forall slot | SlotBreaches(groups, slot, limits) && slot != slots[n]
      ensures SlotBefore(slots[n], slot)
    {
      assert slot in slots;
      var i :| 0 <= i < |slots| && slots[i] == slot;
      assert SlotOrder()(slots[n], slots[i]);
    }
  }

  lemma PrefixListsUpTo(slots: seq<Slot>, groups: Groups, n: nat)
    requires IsListing(slots, groups.Keys, SlotOrder()) && StrictOrder(groups.Keys, SlotOrder()) && n < |slots|
    ensures ListsUpTo(slots[..n + 1], groups, slots[n])
  {
    forall i, j | 0 <= i < j < |slots|
      ensures SlotBefore(slots[i], slots[j]) && !SlotBefore(slots[j], slots[i])
    {
      assert slots[i] in slots && slots[j] in slots;
      assert SlotOrder()(slots[i], slots[j]) && !SlotOrder()(slots[j], slots[i]);
    }
    forall slot
      ensures slot in slots[..n + 1] <==> slot in groups && (slot == slots[n] || SlotBefore(slot, slots[n]))
    {
      if slot in groups {
        var i :| 0 <= i < |slots| && slots[i] == slot;
        assert i <= n ==> slots[..n + 1][i] == slot;
      }
    }
  }

  // ---------- what is recent ----------

  /** The recent completions are the last ones in time: at most the window, all of them
      completed, and no completed sample that is left out is later than one of them. */
  lemma RecentAreTheLatest(group: map<string, Sample>, window: nat)
    requires Filed(group)
    ensures var recent := RecentOf(group, window);
      && |recent| == (if |Completed(group)| < window then |Completed(group)| else window)
      && (forall i :: 0 <= i < |recent| ==> recent[i] in Completed(group))
      && (forall s, i :: s in Completed(group) && s !in recent && 0 <= i < |recent| ==> SampleBefore(s, recent[i]))
  {
    var dom := Completed(group);
    CompletedIdsAreDistinct(group);
    SamplesAreOrdered(dom);
    SomeListing(dom, TimeOrder());
    var all := Listing(dom, TimeOrder());
    ListingLength(all, dom, TimeOrder());
    TailIsLatest(all, dom, if |all| > window then |all| - window else 0);
  }

  lemma TailIsLatest(all: seq<Sample>, dom: set<Sample>, cut: nat)
    requires IsListing(all, dom, TimeOrder()) && cut <= |all|
    ensures forall i :: 0 <= i < |all[cut..]| ==> all[cut..][i] in dom
    ensures forall s, i :: s in dom && s !in all[cut..] && 0 <= i < |all[cut..]| ==> SampleBefore(s, all[cut..][i])
  {
    forall s, i | s in dom && s !in all[cut..] && 0 <= i < |all[cut..]|
      ensures SampleBefore(s, all[cut..][i])
    {
      var k :| 0 <= k < |all| && all[k] == s;
      assert all == all[..cut] + all[cut..];
      assert s in all[..cut];
      var l :| 0 <= l < cut && all[..cut][l] == s;
      assert TimeOrder()(all[l], all[cut + i]);
    }
    forall i | 0 <= i < |all[cut..]|
      ensures all[cut..][i] in dom
    {
      assert all[cut + i] in all;
    }
  }

  lemma {:induction false} ListingLength<T(!new)>(xs: seq<T>, dom: set<T>, lt: (T, T) -> bool)
    requires StrictOrder(dom, lt) && IsListing(xs, dom, lt)
    ensures |xs| == |dom|
    decreases |xs|
  {
    EmptyListing(xs, dom, lt);
    if xs != [] {
      ListingHead(xs, dom, lt);
      ListingLength(xs[1..], dom - {xs[0]}, lt);
    }
  }

  // ---------- the order of entries and samples ----------

  ghost predicate HasSlot(entries: seq<Entry>, slot: Slot) {
    exists i :: 0 <= i < |entries| && entries[i].slot == slot
  }

  ghost predicate Holds(entries: seq<Entry>, slot: Slot, sample: Sample) {
    exists i :: 0 <= i < |entries| && entries[i].slot == slot && sample in entries[i].recentCompletions
  }

  /** Reports of one completion in one slot agree. */
  ghost predicate DuplicatesAgree(entries: seq<Entry>) {
    forall slot, s, t ::
      Holds(entries, slot, s) && Holds(entries, slot, t) && s.completionId == t.completionId ==> s == t
  }

  lemma {:induction false} AddAllMeans(group: map<string, Sample>, samples: seq<Sample>)
    ensures var all := AddAll(group, samples);
      && (forall id :: id in all ==>
            (id in group && all[id] == group[id]) || (all[id] in samples && all[id].completionId == id))
      && (forall id :: id in group ==> id in all)
      && (forall s :: s in samples ==> s.completionId in all)
  {
    if samples != [] {
      AddAllMeans(group, samples[..|samples| - 1]);
      assert samples == samples[..|samples| - 1] + [samples[|samples| - 1]];
    }
  }

  lemma HoldsInParts(entries: seq<Entry>, slot: Slot, sample: Sample)
    requires entries != []
    ensures var last := entries[|entries| - 1];
      && (Holds(entries, slot, sample) <==>
            Holds(entries[..|entries| - 1], slot, sample) || (last.slot == slot && sample in last.recentCompletions))
      && (HasSlot(entries, slot) <==> HasSlot(entries[..|entries| - 1], slot) || last.slot == slot)
  {
    var before := entries[..|entries| - 1];
    assert forall i :: 0 <= i < |before| ==> before[i] == entries[i];
  }

  ghost predicate GroupsAreFrom(groups: Groups, entries: seq<Entry>, slot: Slot) {
    && (slot in groups <==> HasSlot(entries, slot))
    && (slot in groups ==>
          && (forall id :: id in groups[slot] ==>
                Holds(entries, slot, groups[slot][id]) && groups[slot][id].completionId == id)
          && (forall s :: Holds(entries, slot, s) ==> s.completionId in groups[slot]))
  }

  lemma {:induction false} GroupedMeans(entries: seq<Entry>, slot: Slot)
    ensures GroupsAreFrom(Grouped(entries), entries, slot)
    decreases |entries|
  {
    if entries != [] {
      var last := entries[|entries| - 1];
      var before := entries[..|entries| - 1];
      GroupedMeans(before, slot);
      AddAllMeans(GroupOf(Grouped(before), last.slot), last.recentCompletions);
      forall s: Sample
        ensures Holds(entries, slot, s) <==>
          Holds(before, slot, s) || (last.slot == slot && s in last.recentCompletions)
        ensures HasSlot(entries, slot) <==> HasSlot(before, slot) || last.slot == slot
      {
        HoldsInParts(entries, slot, s);
      }
      NothingWithoutSlot(before, slot);
      HoldsInParts(entries, slot, Sample("", "", "", 0, Failed));
    }
  }

  lemma NothingWithoutSlot(entries: seq<Entry>, slot: Slot)
    ensures !HasSlot(entries, slot) ==> forall s :: !Holds(entries, slot, s)
  {
  }

  /** Only which completions are reported for which slots counts, not in what order or in
      which entries, as long as repeated reports agree. */
  lemma OrderDoesNotMatter(entries: seq<Entry>, shuffled: seq<Entry>, limits: Limits)
    requires DuplicatesAgree(entries)
    requires forall slot :: HasSlot(entries, slot) <==> HasSlot(shuffled, slot)
    requires forall slot, s :: Holds(entries, slot, s) <==> Holds(shuffled, slot, s)
    ensures Grouped(entries) == Grouped(shuffled)
    ensures Assess(Grouped(entries), limits) == Assess(Grouped(shuffled), limits)
  {
    var a, b := Grouped(entries), Grouped(shuffled);
    forall slot
      ensures slot in a <==> slot in b
      ensures slot in a && slot in b ==> a[slot] == b[slot]
    {
      GroupedMeans(entries, slot);
      GroupedMeans(shuffled, slot);
      if slot in a {
        SameGroup(entries, shuffled, slot);
      }
    }
  }

  lemma SameGroup(entries: seq<Entry>, shuffled: seq<Entry>, slot: Slot)
    requires DuplicatesAgree(entries) && HasSlot(entries, slot) && HasSlot(shuffled, slot)
    requires forall s :: Holds(entries, slot, s) <==> Holds(shuffled, slot, s)
    ensures slot in Grouped(entries) && slot in Grouped(shuffled) && Grouped(entries)[slot] == Grouped(shuffled)[slot]
  {
    GroupedMeans(entries, slot);
    GroupedMeans(shuffled, slot);
    var a, b := Grouped(entries)[slot], Grouped(shuffled)[slot];
    forall id | id in a
      ensures id in b && a[id] == b[id]
    {
      assert Holds(entries, slot, a[id]) && Holds(shuffled, slot, a[id]);
      assert Holds(shuffled, slot, b[id]);
    }
    forall id | id in b
      ensures id in a
    {
      assert Holds(shuffled, slot, b[id]) && Holds(entries, slot, b[id]);
    }
    assert a.Keys == b.Keys;
  }

  // ---------- old completions ----------

  ghost predicate InTime(samples: seq<Sample>) {
    forall i, j :: 0 <= i < j < |samples| ==> SampleBefore(samples[i], samples[j])
  }

  /** The sample is earlier than all of a full window. */
  ghost predicate IsOlder(s: Sample, recent: seq<Sample>, window: nat) {
    |recent| == window && forall i :: 0 <= i < |recent| ==> SampleBefore(s, recent[i])
  }

  /** Members of the set in time order, at most the window, all others being older. */
  ghost predicate IsWindow(recent: seq<Sample>, dom: set<Sample>, window: nat) {
    && InTime(recent) && |recent| <= window
    && (forall s :: s in recent ==> s in dom)
    && (forall s :: s in dom && s !in recent ==> IsOlder(s, recent, window))
  }

  lemma RecentIsWindow(group: map<string, Sample>, window: nat)
    requires Filed(group)
    ensures IsWindow(RecentOf(group, window), Completed(group), window)
  {
    var dom := Completed(group);
    CompletedIdsAreDistinct(group);
    SamplesAreOrdered(dom);
    SomeListing(dom, TimeOrder());
    var all := Listing(dom, TimeOrder());
    var recent := RecentOf(group, window);
    var cut := |all| - |recent|;
    assert recent == all[cut..];
    forall i, j | 0 <= i < j < |recent|
      ensures SampleBefore(recent[i], recent[j])
    {
      assert TimeOrder()(all[cut + i], all[cut + j]);
    }
    TailIsLatest(all, dom, cut);
    forall s | s in dom && s !in recent
      ensures |recent| == window
    {
      assert s in all;
    }
  }

  /** The older samples in time order, then the window, list the whole set. */
  lemma OlderThenWindow(older: seq<Sample>, recent: seq<Sample>, dom: set<Sample>, window: nat)
    requires IsWindow(recent, dom, window)
    requires IsListing(older, (set s | s in dom && s !in recent), TimeOrder())
    ensures IsListing(older + recent, dom, TimeOrder())
  {
    var all := older + recent;
    forall i, j | 0 <= i < j < |all|
      ensures TimeOrder()(all[i], all[j])
    {
      if j < |older| {
        assert TimeOrder()(older[i], older[j]);
      } else if i < |older| {
        assert older[i] in older;
      } else {
        assert SampleBefore(recent[i - |older|], recent[j - |older|]);
      }
    }
    forall s
      ensures s in all <==> s in dom
    {
      assert s in all <==> s in older || s in recent;
    }
  }

  /** There is one such window, and the gate looks at it. */
  lemma RecentIsTheWindow(group: map<string, Sample>, window: nat, recent: seq<Sample>)
    requires Filed(group) && IsWindow(recent, Completed(group), window)
    ensures recent == RecentOf(group, window)
  {
    var dom := Completed(group);
    var rest := set s | s in dom && s !in recent;
    CompletedIdsAreDistinct(group);
    SamplesAreOrdered(dom);
    SamplesAreOrdered(rest);
    SomeListing(rest, TimeOrder());
    SomeListing(dom, TimeOrder());
    var older := Listing(rest, TimeOrder());
    OlderThenWindow(older, recent, dom, window);
    OneListing(older + recent, Listing(dom, TimeOrder()), dom, TimeOrder());
    EmptyListing(older, rest, TimeOrder());
    if older != [] {
      assert older[0] in rest;
    }
    assert Recent(older + recent, window) == recent;
  }

  lemma CompletedWith(group: map<string, Sample>, y: Sample, s: Sample)
    requires Filed(group) && y.completionId in group
    ensures s in Completed(group[y.completionId := y]) <==>
      if s.completionId == y.completionId then s == y && IsCompletedOutcome(y.status) else s in Completed(group)
  {
    var changed := group[y.completionId := y];
    if s in Completed(group) && s.completionId != y.completionId {
      assert changed[s.completionId] == s;
    }
    if s == y {
      assert changed[y.completionId] == s;
    }
  }

  /** The sample filed under the id of `y` may become `y` without a trace: it is no part of
      the window, and neither is `y`, unless they are the same. */
  ghost predicate IsOldNews(group: map<string, Sample>, y: Sample, window: nat) {
    && y.completionId in group
    && var recent := RecentOf(group, window);
      var x := group[y.completionId];
      y == x || (x !in recent && (IsCompletedOutcome(y.status) ==> IsOlder(y, recent, window)))
  }

  lemma OldNewsKeepsWindow(group: map<string, Sample>, y: Sample, window: nat)
    requires Filed(group) && IsOldNews(group, y, window) && y != group[y.completionId]
    ensures IsWindow(RecentOf(group, window), Completed(group[y.completionId := y]), window)
  {
    var recent := RecentOf(group, window);
    var changed := group[y.completionId := y];
    RecentIsWindow(group, window);
    forall s | s in recent
      ensures s in Completed(changed)
    {
      CompletedWith(group, y, s);
    }
    forall s | s in Completed(changed) && s !in recent
      ensures IsOlder(s, recent, window)
    {
      CompletedWith(group, y, s);
    }
  }

  lemma SameWindowIsOldNews(group: map<string, Sample>, y: Sample, window: nat)
    requires Filed(group) && y.completionId in group
    requires IsWindow(RecentOf(group, window), Completed(group[y.completionId := y]), window)
    ensures IsOldNews(group, y, window)
  {
    var recent := RecentOf(group, window);
    var x := group[y.completionId];
    RecentIsWindow(group, window);
    CompletedWith(group, y, x);
    CompletedWith(group, y, y);
    assert x in recent ==> x == y;
    assert y in recent ==> group[y.completionId] == y;
  }

  /** Altering one sample of a group leaves the completions the gate looks at exactly when
      the sample was, and stays, outside the window. */
  lemma AlteredWindowIff(group: map<string, Sample>, y: Sample, window: nat)
    requires Filed(group) && y.completionId in group
    ensures RecentOf(group[y.completionId := y], window) == RecentOf(group, window) <==> IsOldNews(group, y, window)
  {
    var changed := group[y.completionId := y];
    assert Filed(changed);
    if y == group[y.completionId] {
      assert changed == group;
    } else if IsOldNews(group, y, window) {
      OldNewsKeepsWindow(group, y, window);
      RecentIsTheWindow(changed, window, RecentOf(group, window));
    } else if RecentOf(changed, window) == RecentOf(group, window) {
      RecentIsWindow(changed, window);
      SameWindowIsOldNews(group, y, window);
    }
  }

  // ---------- altering one report ----------

  /** The entries with the report at position `j` of entry `i` altered to `y`. */
  function WithReport(entries: seq<Entry>, i: nat, j: nat, y: Sample): seq<Entry>
    requires i < |entries| && j < |entries[i].recentCompletions|
  {
    entries[i := Entry(entries[i].slot, entries[i].recentCompletions[j := y])]
  }

  ghost predicate Reports(samples: seq<Sample>, id: string, n: nat) {
    exists k :: n <= k < |samples| && samples[k].completionId == id
  }

  /** A later report of the same completion in the same slot overrules the one at (i, j). */
  ghost predicate IsOverruled(entries: seq<Entry>, i: nat, j: nat)
    requires i < |entries| && j < |entries[i].recentCompletions|
  {
    var id := entries[i].recentCompletions[j].completionId;
    || Reports(entries[i].recentCompletions, id, j + 1)
    || exists k :: i < k < |entries| && entries[k].slot == entries[i].slot
                   && Reports(entries[k].recentCompletions, id, 0)
  }

  lemma ReportsInParts(samples: seq<Sample>, id: string, n: nat)
    requires n < |samples|
    ensures Reports(samples, id, n) <==>
      Reports(samples[..|samples| - 1], id, n) || samples[|samples| - 1].completionId == id
  {
    var before := samples[..|samples| - 1];
    assert forall k :: 0 <= k < |before| ==> before[k] == samples[k];
  }

  lemma {:induction false} AddAllOver(group: map<string, Sample>, y: Sample, samples: seq<Sample>)
    ensures AddAll(group[y.completionId := y], samples) ==
      if Reports(samples, y.completionId, 0) then AddAll(group, samples)
      else AddAll(group, samples)[y.completionId := y]
  {
    if samples != [] {
      AddAllOver(group, y, samples[..|samples| - 1]);
      ReportsInParts(samples, y.completionId, 0);
    }
  }

  lemma {:induction false} AddAllAltered(group: map<string, Sample>, samples: seq<Sample>, j: nat, y: Sample)
    requires j < |samples| && samples[j].completionId == y.completionId
    ensures AddAll(group, samples[j := y]) ==
      if Reports(samples, y.completionId, j + 1) then AddAll(group, samples)
      else AddAll(group, samples)[y.completionId := y]
    ensures y.completionId in AddAll(group, samples)
  {
    var n := |samples| - 1;
    var before := samples[..n];
    if j < n {
      AddAllAltered(group, before, j, y);
      ReportsInParts(samples, y.completionId, j + 1);
      assert samples[j := y][..n] == before[j := y];
    } else {
      assert samples[j := y][..n] == before;
    }
  }

  /** `changed` is `groups`, with `y` filed in the slot unless it is overruled. */
  ghost predicate FilesIn(changed: Groups, groups: Groups, slot: Slot, y: Sample, overruled: bool) {
    && slot in groups && y.completionId in groups[slot]
    && changed == if overruled then groups else groups[slot := groups[slot][y.completionId := y]]
  }

  /** One entry more on both sides. */
  lemma FilesInOneMore(changed: Groups, groups: Groups, slot: Slot, y: Sample, overruled: bool, last: Entry)
    requires FilesIn(changed, groups, slot, y, overruled)
    ensures FilesIn(changed[last.slot := AddAll(GroupOf(changed, last.slot), last.recentCompletions)],
                    groups[last.slot := AddAll(GroupOf(groups, last.slot), last.recentCompletions)],
                    slot, y, overruled || (last.slot == slot && Reports(last.recentCompletions, y.completionId, 0)))
  {
    AddAllMeans(GroupOf(groups, last.slot), last.recentCompletions);
    if !overruled && last.slot == slot {
      AddAllOver(groups[slot], y, last.recentCompletions);
    }
  }

  lemma OverruledInParts(entries: seq<Entry>, i: nat, j: nat)
    requires i < |entries| - 1 && j < |entries[i].recentCompletions|
    ensures var last := entries[|entries| - 1];
      IsOverruled(entries, i, j) <==>
        IsOverruled(entries[..|entries| - 1], i, j)
        || (last.slot == entries[i].slot
            && Reports(last.recentCompletions, entries[i].recentCompletions[j].completionId, 0))
  {
    var before := entries[..|entries| - 1];
    assert forall k :: 0 <= k < |before| ==> before[k] == entries[k];
  }

  lemma {:induction false} GroupedAltered(entries: seq<Entry>, i: nat, j: nat, y: Sample)
    requires i < |entries| && j < |entries[i].recentCompletions|
    requires y.completionId == entries[i].recentCompletions[j].completionId
    ensures FilesIn(Grouped(WithReport(entries, i, j, y)), Grouped(entries), entries[i].slot, y,
                    IsOverruled(entries, i, j))
    decreases |entries|
  {
    var n := |entries| - 1;
    var before, last := entries[..n], entries[n];
    var altered := WithReport(entries, i, j, y);
    if i < n {
      GroupedAltered(before, i, j, y);
      OverruledInParts(entries, i, j);
      assert altered[..n] == WithReport(before, i, j, y) && altered[n] == last;
      FilesInOneMore(Grouped(altered[..n]), Grouped(before), entries[i].slot, y, IsOverruled(before, i, j), last);
    } else {
      AddAllAltered(GroupOf(Grouped(before), last.slot), last.recentCompletions, j, y);
      assert altered[..n] == before;
    }
  }

  /** One report of a completion altered, in its time, its outcome, whether it counts at all
      or its event: if a later report overrules it, or if its sample was and stays outside
      the window, the assessment is the same. */
  lemma OldCompletionsDoNotMatter(entries: seq<Entry>, limits: Limits, i: nat, j: nat, y: Sample)
    requires i < |entries| && j < |entries[i].recentCompletions|
    requires y.completionId == entries[i].recentCompletions[j].completionId
    requires IsOverruled(entries, i, j) || IsOldNews(GroupOf(Grouped(entries), entries[i].slot), y, limits.window)
    ensures Assess(Grouped(WithReport(entries, i, j, y)), limits) == Assess(Grouped(entries), limits)
  {
    GroupedAltered(entries, i, j, y);
    if !IsOverruled(entries, i, j) {
      GroupsAreFiled(entries);
      AlteredWindowIff(Grouped(entries)[entries[i].slot], y, limits.window);
      SameWindowsSameAssessment(Grouped(entries), Grouped(WithReport(entries, i, j, y)), limits);
    }
  }

  lemma SameWindowsSameAssessment(groups: Groups, changed: Groups, limits: Limits)
    requires groups.Keys == changed.Keys
    requires forall slot :: slot in groups ==>
      RecentOf(groups[slot], limits.window) == RecentOf(changed[slot], limits.window)
    ensures Assess(changed, limits) == Assess(groups, limits)
  {
    SameRecentSameJudgement(SlotsOf(groups), groups, changed, limits, []);
  }

  lemma {:induction false} SameRecentSameJudgement(
    slots: seq<Slot>, groups: Groups, changed: Groups, limits: Limits, warnings: seq<Warning>)
    requires forall slot :: slot in slots ==> slot in groups && slot in changed
    requires forall slot :: slot in slots ==>
      RecentOf(groups[slot], limits.window) == RecentOf(changed[slot], limits.window)
    ensures JudgeAll(slots, groups, limits, warnings) == JudgeAll(slots, changed, limits, warnings)
    decreases |slots|
  {
    if slots != [] {
      assert slots[0] in slots;
      var recent := RecentOf(groups[slots[0]], limits.window);
      SameRecentSameJudgement(slots[1..], groups, changed, limits, warnings + WarningsOf(slots[0], recent, limits));
    }
  }
}
