/**
The sequential code of src/events.rs: one emit, the de-duplicating read, and the wait.
*/
module EventStore {
  import opened Common
  import opened EventProtocol
  import opened Selections

  // Emit works under the lock. The wait is cursor-based, over a log that keeps growing
  // between polls.

  const KNOWN_EVENT_TYPES: seq<string> := [
    "run.started", "run.closed", "contract.updated", "phase.changed", "task.created",
    "task.status_changed", "runner.started", "runner.finished", "runner.retry",
    "runner.healthcheck", "agent.turn.completed", "agent.session.ended",
    "agent.dispatch.completed", "runner.window.cleaned", "artifact.registered",
    "audit.dispatched", "audit.finding", "audit.round.recorded", "audit.ledger.evaluated",
    "gate.evaluated", "gate.blocked", "budget.warned", "budget.exceeded", "sandbox.rejected",
    "judge.skipped", "decision.voted", "decision.escalated", "decision.recorded",
    "decision.reaffirmed"
  ]

  const ACTOR_KINDS: seq<string> := ["host", "lto", "runner", "auditor", "human"]

  /** A parsed line. Only emitted events are sure to carry a numeric id. */
  datatype Event = Event(id: Option<nat>, kind: string, summary: string)

  /** A line of events.jsonl: blank, not JSON, or an event. */
  datatype Line = Blank | Garbage | Entry(event: Event)

  datatype EmitRequest = EmitRequest(
    eventType: string, actorKind: string, summary: string, containsRawOutput: bool, force: bool)

  datatype EmitError =
    | UnknownEventType
    | UnknownActorKind
    | RawOutputForbidden
    | NoRunState
    | LockTimeout
    | HardStop(present: nat)

  // ---------- emit ----------

  function NonBlank(lines: seq<Line>): nat {
    if lines == [] then 0
    else NonBlank(lines[..|lines| - 1]) + if lines[|lines| - 1].Blank? then 0 else 1
  }

  lemma {:induction false} NonBlankCounts(lines: seq<Line>)
    ensures NonBlank(lines) == |set i | 0 <= i < |lines| && !lines[i].Blank?|
  {
    var all := set i | 0 <= i < |lines| && !lines[i].Blank?;
    if lines != [] {
      var n := |lines| - 1;
      NonBlankCounts(lines[..n]);
      var before := set i | 0 <= i < |lines[..n]| && !lines[..n][i].Blank?;
      assert all == before + if lines[n].Blank? then {} else {n};
    }
  }

  /** What read_event_counter yields for a counter file and a log file. */
  function CountOf(c: Counter, lines: seq<Line>): nat {
    if c.Value? then c.count else NonBlank(lines)
  }

  /** The two files of one run directory that emit works on. */
  class RunDirectory {
    var counter: Counter
    var lines: seq<Line>

    constructor ()
      ensures counter == Missing && lines == []
    {
      counter := Missing;
      lines := [];
    }

    method CountFileEvents() returns (n: nat)
      ensures n == NonBlank(lines) == |set i | 0 <= i < |lines| && !lines[i].Blank?|
    {
      NonBlankCounts(lines);
      n := 0;
      for i := 0 to |lines|
        invariant n == NonBlank(lines[..i])
      {
        assert lines[..i + 1][..i] == lines[..i];
        if !lines[i].Blank? {
          n := n + 1;
        }
      }
      assert lines[..|lines|] == lines;
    }

    /** A counter file that does not parse is removed, and the lines are counted. */
    method ReadEventCounter() returns (n: nat)
      modifies this`counter
      ensures n == CountOf(old(counter), lines)
      ensures counter == if old(counter).Unreadable? then Missing else old(counter)
    {
      match counter
      case Missing =>
        n := CountFileEvents();
      case Value(c) =>
        n := c;
      case Unreadable =>
        counter := Missing;
        n := CountFileEvents();
    }

    method WriteEventCounter(n: nat)
      modifies this`counter
      ensures counter == Value(n)
    {
      counter := Value(n);
    }

    /** One emit. `stateExists` and `locked` say what the file system answered. */
    method Emit(request: EmitRequest, stateExists: bool, locked: bool) returns (r: Result<Event, EmitError>)
      modifies this
      ensures r == Err(UnknownEventType) <==> request.eventType !in KNOWN_EVENT_TYPES
      ensures r == Err(UnknownActorKind) <==>
        request.eventType in KNOWN_EVENT_TYPES && request.actorKind !in ACTOR_KINDS
      ensures r == Err(RawOutputForbidden) <==>
        && request.eventType in KNOWN_EVENT_TYPES && request.actorKind in ACTOR_KINDS
        && request.containsRawOutput
      ensures r == Err(NoRunState) <==>
        && request.eventType in KNOWN_EVENT_TYPES && request.actorKind in ACTOR_KINDS
        && !request.containsRawOutput && !stateExists
      ensures r == Err(LockTimeout) <==>
        && request.eventType in KNOWN_EVENT_TYPES && request.actorKind in ACTOR_KINDS
        && !request.containsRawOutput && stateExists && !locked
      ensures r.Err? ==>
        && lines == old(lines)
        && (counter == old(counter) || (r.error.HardStop? && old(counter).Unreadable? && counter.Missing?))
      ensures r.Ok? || r.error.HardStop? ==>
        var n := if old(counter).Value? then old(counter).count
                 else |set i | 0 <= i < |old(lines)| && !old(lines)[i].Blank?|;
        if n >= 50_000 && !request.force then
          && r == Err(HardStop(n))
          && counter == (if old(counter).Unreadable? then Missing else old(counter))
        else
          && r == Ok(Event(Some(n + 1), request.eventType, request.summary))
          && counter == Value(n + 1) && lines == old(lines) + [Entry(r.value)]
    {
      if request.eventType !in KNOWN_EVENT_TYPES {
        return Err(UnknownEventType);
      }
      if request.actorKind !in ACTOR_KINDS {
        return Err(UnknownActorKind);
      }
      if request.containsRawOutput {
        return Err(RawOutputForbidden);
      }
      if !stateExists {
        return Err(NoRunState);
      }
      if !locked {
        return Err(LockTimeout);
      }
      NonBlankCounts(lines);
      var count := ReadEventCounter();
      if count >= HARD_STOP_AT && !request.force {
        return Err(HardStop(count));
      }
      var newEventId := count + 1;
      WriteEventCounter(newEventId);
      var event := Event(Some(newEventId), request.eventType, request.summary);
      lines := lines + [Entry(event)];
      return Ok(event);
    }

    method Read() returns (events: seq<Event>)
      ensures events == Surviving(lines)
    {
      var seenIds: set<nat> := {};
      events := [];
      for i := 0 to |lines|
        invariant events == Surviving(lines[..i])
        invariant seenIds == IdsIn(lines[..i])
      {
        assert lines[..i + 1][..i] == lines[..i];
        if lines[i].Entry? {
          var item := lines[i].event;
          if item.id.Some? {
            if item.id.value in seenIds {
              continue;
            }
            seenIds := seenIds + {item.id.value};
          }
          events := events + [item];
        }
      }
      assert lines[..|lines|] == lines;
    }
  }

  // ---------- emit and the protocol ----------

  /** The protocol's log against the file: one record per line that is not blank, in
      order, with the line's id if the line is an event that has one. */
  ghost predicate SameIds(log: seq<Record>, lines: seq<Line>) {
    if lines == [] then log == []
    else
      var line := lines[|lines| - 1];
      var before := lines[..|lines| - 1];
      if line.Blank? then SameIds(log, before)
      else
        && log != [] && SameIds(log[..|log| - 1], before)
        && (line.Entry? && line.event.id.Some? ==> line.event.id.value == log[|log| - 1].id)
  }

  lemma {:induction false} RecordsCountLines(log: seq<Record>, lines: seq<Line>)
    requires SameIds(log, lines)
    ensures NonBlank(lines) == |log|
    decreases |lines|
  {
    if lines != [] {
      var line := lines[|lines| - 1];
      RecordsCountLines(if line.Blank? then log else log[..|log| - 1], lines[..|lines| - 1]);
    }
  }

  lemma OneMoreLine(log: seq<Record>, lines: seq<Line>, r: Record, event: Event)
    requires SameIds(log, lines) && event.id == Some(r.id)
    ensures SameIds(log + [r], lines + [Entry(event)])
  {
    assert (log + [r])[..|log|] == log;
    assert (lines + [Entry(event)])[..|lines|] == lines;
  }

  /** The critical section of the protocol, taken without interruption. */
  lemma CriticalSection(s: State, p: Pid, n: nat, force: bool) returns (steps: seq<Step>)
    requires At(s, p, Locked) && n == CounterValue(s.counter, s.log) && (n < HARD_STOP_AT || force)
    ensures OwnRun(steps, {p})
    ensures Leads(s, steps, Set(s, p, Releasing).(counter := Value(n + 1), log := s.log + [Record(n + 1, force)]))
  {
    var s1 := Set(s, p, Counted(n, force)).(counter := if s.counter.Unreadable? then Missing else s.counter);
    var s2 := Set(s, p, Truncated(n + 1, force)).(counter := Unreadable);
    var s3 := Set(s, p, Stamped(n + 1, force)).(counter := Value(n + 1));
    var s4 := Set(s, p, Releasing).(counter := Value(n + 1), log := s.log + [Record(n + 1, force)]);
    Overwrite(s.procs, p, Counted(n, force), Truncated(n + 1, force));
    Overwrite(s.procs, p, Truncated(n + 1, force), Stamped(n + 1, force));
    Overwrite(s.procs, p, Stamped(n + 1, force), Releasing);
    steps := Walk(s, [], s, ReadCounter(p, force), s1, {p});
    steps := Walk(s, steps, s1, Truncate(p), s2, {p});
    steps := Walk(s, steps, s2, WriteCounter(p), s3, {p});
    steps := Walk(s, steps, s3, Append(p), s4, {p});
  }

  /** What `Emit` does to the files is what the critical section of the protocol does
      to them: the same counter, and the same id on one more line. */
  lemma EmitFollowsTheProtocol(s: State, p: Pid, lines: seq<Line>, force: bool, event: Event)
      returns (steps: seq<Step>, t: State)
    requires At(s, p, Locked) && SameIds(s.log, lines)
    requires var n := CountOf(s.counter, lines);
      (n < HARD_STOP_AT || force) && event.id == Some(n + 1)
    ensures Leads(s, steps, t) && OwnRun(steps, {p})
    ensures t.counter == Value(event.id.value) && SameIds(t.log, lines + [Entry(event)]) && At(t, p, Releasing)
  {
    RecordsCountLines(s.log, lines);
    var n := CountOf(s.counter, lines);
    OneMoreLine(s.log, lines, Record(n + 1, force), event);
    steps := CriticalSection(s, p, n, force);
    t := Set(s, p, Releasing).(counter := Value(n + 1), log := s.log + [Record(n + 1, force)]);
  }

  /** So is the refusal at the hard stop: the counter is read, an unreadable counter file
      is removed, and nothing is written. */
  lemma HardStopFollowsTheProtocol(s: State, p: Pid, lines: seq<Line>) returns (steps: seq<Step>, t: State)
    requires At(s, p, Locked) && SameIds(s.log, lines) && CountOf(s.counter, lines) >= HARD_STOP_AT
    ensures Leads(s, steps, t) && OwnRun(steps, {p})
    ensures t.counter == (if s.counter.Unreadable? then Missing else s.counter)
    ensures t.log == s.log && At(t, p, Releasing)
    ensures !Enabled(Next(s, ReadCounter(p, false)), Truncate(p))
  {
    RecordsCountLines(s.log, lines);
    var n := CountOf(s.counter, lines);
    var left := if s.counter.Unreadable? then Missing else s.counter;
    var counted := Set(s, p, Counted(n, false)).(counter := left);
    t := Set(s, p, Releasing).(counter := left);
    Overwrite(s.procs, p, Counted(n, false), Releasing);
    steps := Walk(s, [], s, ReadCounter(p, false), counted, {p});
    steps := Walk(s, steps, counted, Abort(p), t, {p});
  }

  // ---------- read ----------

  function IdsIn(lines: seq<Line>): set<nat> {
    if lines == [] then {}
    else
      var last := lines[|lines| - 1];
      IdsIn(lines[..|lines| - 1])
      + if last.Entry? && last.event.id.Some? then {last.event.id.value} else {}
  }

  /** The events read keeps. */
  function Surviving(lines: seq<Line>): seq<Event> {
    if lines == [] then []
    else
      var before := lines[..|lines| - 1];
      var last := lines[|lines| - 1];
      if !last.Entry? || (last.event.id.Some? && last.event.id.value in IdsIn(before))
      then Surviving(before)
      else Surviving(before) + [last.event]
  }

  /** Line `i` is an event whose id, if it has one, no earlier line carries. */
  ghost predicate FirstOfItsId(lines: seq<Line>, i: nat)
    requires i < |lines|
  {
    && lines[i].Entry?
    && (lines[i].event.id.Some? ==>
          forall j :: 0 <= j < i && lines[j].Entry? ==> lines[j].event.id != lines[i].event.id)
  }

  /** The line numbers kept, in file order. */
  ghost function FirstLines(lines: seq<Line>, n: nat): seq<nat>
    requires n <= |lines|
  {
    if n == 0 then []
    else FirstLines(lines, n - 1) + if FirstOfItsId(lines, n - 1) then [n - 1] else []
  }

  lemma {:induction false} IdsInAreIds(lines: seq<Line>, id: nat)
    ensures id in IdsIn(lines) <==>
      exists j :: 0 <= j < |lines| && lines[j].Entry? && lines[j].event.id == Some(id)
  {
    if lines != [] {
      var n := |lines| - 1;
      IdsInAreIds(lines[..n], id);
      if id in IdsIn(lines[..n]) {
        var j :| 0 <= j < n && lines[..n][j].Entry? && lines[..n][j].event.id == Some(id);
        assert lines[j] == lines[..n][j];
      }
      if j :| 0 <= j < |lines| && lines[j].Entry? && lines[j].event.id == Some(id) {
        if j < n {
          assert lines[..n][j] == lines[j];
        }
      }
    }
  }

  lemma {:induction false} FirstLinesInRange(lines: seq<Line>, n: nat)
    requires n <= |lines|
    ensures forall k :: 0 <= k < |FirstLines(lines, n)| ==>
      FirstLines(lines, n)[k] < n && FirstOfItsId(lines, FirstLines(lines, n)[k])
    ensures forall k, m :: 0 <= k < m < |FirstLines(lines, n)| ==> FirstLines(lines, n)[k] < FirstLines(lines, n)[m]
  {
    if n > 0 {
      FirstLinesInRange(lines, n - 1);
    }
  }

  lemma {:induction false} ReadPrefixKeepsFirst(lines: seq<Line>, n: nat)
    requires n <= |lines|
    ensures |Surviving(lines[..n])| == |FirstLines(lines, n)|
    ensures forall k :: 0 <= k < |FirstLines(lines, n)| ==>
      FirstLines(lines, n)[k] < n && lines[FirstLines(lines, n)[k]].Entry?
      && Surviving(lines[..n])[k] == lines[FirstLines(lines, n)[k]].event
  {
    FirstLinesInRange(lines, n);
    if n > 0 {
      ReadPrefixKeepsFirst(lines, n - 1);
      FirstLinesInRange(lines, n - 1);
      assert lines[..n][..n - 1] == lines[..n - 1];
      if lines[n - 1].Entry? && lines[n - 1].event.id.Some? {
        IdsInAreIds(lines[..n - 1], lines[n - 1].event.id.value);
        assert forall j :: 0 <= j < n - 1 ==> lines[..n - 1][j] == lines[j];
      }
    }
  }

  lemma {:induction false} FirstLinesMembers(lines: seq<Line>, n: nat, i: nat)
    requires n <= |lines|
    ensures i in FirstLines(lines, n) <==> i < n && FirstOfItsId(lines, i)
  {
    if n > 0 {
      FirstLinesMembers(lines, n - 1, i);
    }
  }

  /** read keeps, in file order, exactly the events whose id is new at their line: at the
      lines `at`, which are those of events that share their id with no earlier event. */
  lemma ReadKeepsFirstOccurrences(lines: seq<Line>) returns (at: seq<nat>)
    ensures at == FirstLines(lines, |lines|) && |at| == |Surviving(lines)|
    ensures forall i, j :: 0 <= i < j < |at| ==> at[i] < at[j]
    ensures forall k :: 0 <= k < |at| ==> at[k] < |lines| && lines[at[k]] == Entry(Surviving(lines)[k])
    ensures forall i: nat :: i in at <==>
      && i < |lines| && lines[i].Entry?
      && (lines[i].event.id.Some? ==>
            forall j :: 0 <= j < i && lines[j].Entry? ==> lines[j].event.id != lines[i].event.id)
  {
    at := FirstLines(lines, |lines|);
    ReadPrefixKeepsFirst(lines, |lines|);
    FirstLinesInRange(lines, |lines|);
    assert lines[..|lines|] == lines;
    forall i: nat
      ensures i in at <==> i < |lines| && FirstOfItsId(lines, i)
    {
      FirstLinesMembers(lines, |lines|, i);
    }
  }

  /** No two events read back share an id, whatever the file holds. */
  lemma ReadIdsDistinct(lines: seq<Line>, i: nat, j: nat)
    requires i < j < |Surviving(lines)| && Surviving(lines)[i].id.Some?
    ensures Surviving(lines)[i].id != Surviving(lines)[j].id
  {
    var at := ReadKeepsFirstOccurrences(lines);
    FirstLinesInRange(lines, |lines|);
    var a, b := at[i], at[j];
    assert a < b && FirstOfItsId(lines, b);
    assert lines[a] == Entry(Surviving(lines)[i]);
  }

  /** Appending lines never changes what was read before. */
  lemma {:induction false} ReadGrowsWithTheFile(shorter: seq<Line>, longer: seq<Line>)
    requires shorter <= longer
    ensures Surviving(shorter) <= Surviving(longer)
    decreases |longer|
  {
    if shorter != longer {
      var before := longer[..|longer| - 1];
      assert shorter <= before;
      ReadGrowsWithTheFile(shorter, before);
    }
  }

  // ---------- wait_for ----------

  predicate Wanted(e: Event, after: nat, kind: string) {
    e.id.Some? && e.id.value > after && e.kind == kind
  }

  /** The first wanted event of a list. */
  function FirstWanted(events: seq<Event>, after: nat, kind: string): Option<Event> {
    if events == [] then None
    else if Wanted(events[0], after, kind) then Some(events[0])
    else FirstWanted(events[1..], after, kind)
  }

  function MaxId(events: seq<Event>): nat {
    if events == [] then 0
    else
      var rest := MaxId(events[1..]);
      if events[0].id.Some? && events[0].id.value > rest then events[0].id.value else rest
  }

  /** The cursor a wait starts from: the given one, or the largest id at call time. */
  function StartAfter(existing: seq<Event>, after: Option<nat>): nat {
    if after.Some? then after.value else MaxId(existing)
  }

  /** A wait over the successive contents of the log file: the first one read at the
      call, the others at the polls until the timeout. */
  function WaitResult(snapshots: seq<seq<Line>>, after: nat, kind: string): Option<Event> {
    if snapshots == [] then None
    else
      var found := FirstWanted(Surviving(snapshots[0]), after, kind);
      if found.Some? then found else WaitResult(snapshots[1..], after, kind)
  }

  /** What is found has the type and an id above the cursor, and nothing before it has. */
  lemma {:induction false} FoundMeans(events: seq<Event>, after: nat, kind: string)
    ensures var r := FirstWanted(events, after, kind);
      && (r.Some? ==>
            && r.value.kind == kind && r.value.id.Some? && r.value.id.value > after
            && exists i :: 0 <= i < |events| && events[i] == r.value
                 && forall j :: 0 <= j < i && events[j].kind == kind && events[j].id.Some? ==>
                      events[j].id.value <= after)
      && (r.None? ==> forall e :: e in events && e.kind == kind && e.id.Some? ==> e.id.value <= after)
  {
    if events != [] {
      FoundMeans(events[1..], after, kind);
      assert events == [events[0]] + events[1..];
      assert forall i :: 0 < i < |events| ==> events[i] == events[1..][i - 1];
      assert forall i :: 0 <= i < |events| - 1 ==> events[1..][i] == events[i + 1];
    }
  }

  /** A wait returns an event of the type above the cursor that some snapshot holds, and
      times out only if no snapshot holds one. */
  lemma {:induction false} WaitMeans(snapshots: seq<seq<Line>>, after: nat, kind: string)
    ensures var r := WaitResult(snapshots, after, kind);
      && (r.Some? ==>
            && r.value.kind == kind && r.value.id.Some? && r.value.id.value > after
            && exists k :: 0 <= k < |snapshots| && r.value in Surviving(snapshots[k]))
      && (r.None? ==>
            forall k, e :: 0 <= k < |snapshots| && e in Surviving(snapshots[k]) && e.kind == kind && e.id.Some? ==>
              e.id.value <= after)
  {
    if snapshots != [] {
      FoundMeans(Surviving(snapshots[0]), after, kind);
      WaitMeans(snapshots[1..], after, kind);
      assert forall k :: 0 < k < |snapshots| ==> snapshots[k] == snapshots[1..][k - 1];
      var rest := WaitResult(snapshots[1..], after, kind);
      if FirstWanted(Surviving(snapshots[0]), after, kind).None? && rest.Some? {
        var k :| 0 <= k < |snapshots| - 1 && rest.value in Surviving(snapshots[1..][k]);
        assert rest.value in Surviving(snapshots[k + 1]);
      }
    }
  }

  /** Without a cursor the wait starts from the largest id there is, or from 0. */
  lemma CursorMeans(existing: seq<Event>, after: Option<nat>)
    ensures var start := StartAfter(existing, after);
      && (after.Some? ==> start == after.value)
      && (after.None? ==>
            && (forall e :: e in existing && e.id.Some? ==> e.id.value <= start)
            && (start == 0 || exists e :: e in existing && e.id == Some(start)))
  {
    MaxIdIsAnId(existing);
    forall e | e in existing && e.id.Some?
      ensures e.id.value <= MaxId(existing)
    {
      var i :| 0 <= i < |existing| && existing[i] == e;
      MaxIdBoundsAll(existing, i);
    }
  }

  method CheckEvents(events: seq<Event>, after: nat, kind: string) returns (r: Option<Event>)
    ensures r == FirstWanted(events, after, kind)
    ensures r.Some? ==>
      && r.value.kind == kind && r.value.id.Some? && r.value.id.value > after
      && exists i :: 0 <= i < |events| && events[i] == r.value
           && forall j :: 0 <= j < i && events[j].kind == kind && events[j].id.Some? ==> events[j].id.value <= after
    ensures r.None? ==> forall e :: e in events && e.kind == kind && e.id.Some? ==> e.id.value <= after
  {
    FoundMeans(events, after, kind);
    for i := 0 to |events|
      invariant FirstWanted(events, after, kind) == FirstWanted(events[i..], after, kind)
    {
      if Wanted(events[i], after, kind) {
        return Some(events[i]);
      }
    }
    return None;
  }

  method WaitFor(existing: seq<Line>, polls: seq<seq<Line>>, kind: string, after: Option<nat>)
      returns (r: Option<Event>)
    ensures r == WaitResult([existing] + polls, StartAfter(Surviving(existing), after), kind)
    ensures r.Some? ==>
      && r.value.kind == kind && r.value.id.Some? && r.value.id.value > 0
      && (after.Some? ==> r.value.id.value > after.value)
      && (after.None? ==>
            forall e :: e in Surviving(existing) && e.id.Some? ==> e.id.value < r.value.id.value)
    ensures r.None? && after.Some? ==>
      forall e :: e in Surviving(existing) && e.kind == kind && e.id.Some? ==> e.id.value <= after.value
    ensures r.None? ==>
      forall k, e :: 0 <= k < |polls| && e in Surviving(polls[k]) && e.kind == kind && e.id.Some? ==>
        if after.Some? then e.id.value <= after.value
        else e.id.value == 0 || exists x :: x in Surviving(existing) && x.id.Some? && x.id.value >= e.id.value
  {
    var events := Surviving(existing);
    var startAfter := StartAfter(events, after);
    WaitMeans([existing] + polls, startAfter, kind);
    CursorMeans(events, after);
    assert ([existing] + polls)[0] == existing && ([existing] + polls)[1..] == polls;
    assert forall k :: 0 <= k < |polls| ==> ([existing] + polls)[k + 1] == polls[k];
    r := CheckEvents(events, startAfter, kind);
    if r.Some? {
      return;
    }
    var k := 0;
    while k < |polls|
      invariant 0 <= k <= |polls|
      invariant WaitResult([existing] + polls, startAfter, kind) == WaitResult(polls[k..], startAfter, kind)
    {
      var current := Surviving(polls[k]);
      r := CheckEvents(current, startAfter, kind);
      if r.Some? {
        return;
      }
      k := k + 1;
    }
    return None;
  }

  /** The events a caller holding cursor `after` still has to see, in log order. */
  function Pending(events: seq<Event>, after: nat, kind: string): seq<Event> {
    if events == [] then []
    else (if Wanted(events[0], after, kind) then [events[0]] else []) + Pending(events[1..], after, kind)
  }

  ghost predicate IncreasingIds(events: seq<Event>) {
    forall i, j :: 0 <= i < j < |events| && events[i].id.Some? && events[j].id.Some? ==>
      events[i].id.value < events[j].id.value
  }

  /** A chain of waits: every wait starts at the id the one before it returned, and a
      wait that times out ends the chain. */
  function Delivered(waits: seq<seq<seq<Line>>>, after: nat, kind: string): seq<Event> {
    if waits == [] then []
    else
      var r := WaitResult(waits[0], after, kind);
      if r.None? || r.value.id.None? then []
      else [r.value] + Delivered(waits[1..], r.value.id.value, kind)
  }

  /** All snapshots of all waits are states of one log on its way to `final`. */
  ghost predicate OnTheWayTo(waits: seq<seq<seq<Line>>>, final: seq<Line>) {
    forall w, k :: 0 <= w < |waits| && 0 <= k < |waits[w]| ==> waits[w][k] <= final
  }

  lemma {:induction false} FirstWantedIsFirstPending(events: seq<Event>, after: nat, kind: string)
    ensures FirstWanted(events, after, kind) ==
      if Pending(events, after, kind) == [] then None else Some(Pending(events, after, kind)[0])
  {
    if events != [] {
      FirstWantedIsFirstPending(events[1..], after, kind);
    }
  }

  lemma PendingHead(events: seq<Event>, rest: seq<Event>, after: nat, kind: string)
    requires events != [] && rest == events[1..]
    ensures Pending(events, after, kind) ==
      (if Wanted(events[0], after, kind) then [events[0]] else []) + Pending(rest, after, kind)
  {
  }

  lemma {:induction false} PendingSplits(a: seq<Event>, b: seq<Event>, after: nat, kind: string)
    ensures Pending(a + b, after, kind) == Pending(a, after, kind) + Pending(b, after, kind)
  {
    if a == [] {
      assert a + b == b;
    } else {
      PendingSplits(a[1..], b, after, kind);
      PendingHead(a + b, a[1..] + b, after, kind);
      var head := if Wanted(a[0], after, kind) then [a[0]] else [];
      assert head + (Pending(a[1..], after, kind) + Pending(b, after, kind))
        == (head + Pending(a[1..], after, kind)) + Pending(b, after, kind);
    }
  }

  /** Nothing of a list is pending once the cursor has passed all its ids. */
  lemma {:induction false} NothingPendingBelow(events: seq<Event>, after: nat, kind: string)
    requires forall i :: 0 <= i < |events| && events[i].id.Some? ==> events[i].id.value <= after
    ensures Pending(events, after, kind) == []
  {
    if events != [] {
      assert forall i :: 0 <= i < |events[1..]| ==> events[1..][i] == events[i + 1];
      NothingPendingBelow(events[1..], after, kind);
    }
  }

  /** Moving the cursor to the first pending event drops exactly that event. */
  lemma {:induction false} CursorDropsTheFirst(events: seq<Event>, after: nat, kind: string)
    requires IncreasingIds(events) && Pending(events, after, kind) != []
    ensures var first := Pending(events, after, kind)[0];
      first.id.Some? && Pending(events, first.id.value, kind) == Pending(events, after, kind)[1..]
  {
    var rest := events[1..];
    assert forall i :: 0 <= i < |rest| ==> rest[i] == events[i + 1];
    if Wanted(events[0], after, kind) {
      SameAboveCursor(rest, after, events[0].id.value, kind);
    } else {
      CursorDropsTheFirst(rest, after, kind);
      var first := Pending(rest, after, kind)[0];
      PendingAreMembers(rest, after, kind, 0);
    }
  }

  lemma {:induction false} PendingAreMembers(events: seq<Event>, after: nat, kind: string, k: nat)
    requires k < |Pending(events, after, kind)|
    ensures Pending(events, after, kind)[k] in events && Wanted(Pending(events, after, kind)[k], after, kind)
  {
    if Wanted(events[0], after, kind) {
      if k > 0 {
        PendingAreMembers(events[1..], after, kind, k - 1);
      }
    } else {
      PendingAreMembers(events[1..], after, kind, k);
    }
  }

  lemma {:induction false} SameAboveCursor(events: seq<Event>, a: nat, b: nat, kind: string)
    requires forall i :: 0 <= i < |events| && events[i].id.Some? ==> events[i].id.value > a && events[i].id.value > b
    ensures Pending(events, a, kind) == Pending(events, b, kind)
  {
    if events != [] {
      assert forall i :: 0 <= i < |events[1..]| ==> events[1..][i] == events[i + 1];
      SameAboveCursor(events[1..], a, b, kind);
    }
  }

  /** A wait returns the first event the final log still owes the caller, and times out
      only if no snapshot showed one. */
  lemma {:induction false} WaitReturnsFirstPending(
    snapshots: seq<seq<Line>>, final: seq<Line>, after: nat, kind: string)
    requires forall k :: 0 <= k < |snapshots| ==> snapshots[k] <= final
    ensures var r := WaitResult(snapshots, after, kind);
      r.Some? ==> Pending(Surviving(final), after, kind) != [] && r.value == Pending(Surviving(final), after, kind)[0]
    ensures WaitResult(snapshots, after, kind).None? && final in snapshots ==>
      Pending(Surviving(final), after, kind) == []
  {
    if snapshots != [] {
      var seen := Surviving(snapshots[0]);
      var all := Surviving(final);
      ReadGrowsWithTheFile(snapshots[0], final);
      FirstWantedIsFirstPending(seen, after, kind);
      assert all == seen + all[|seen|..];
      PendingSplits(seen, all[|seen|..], after, kind);
      assert forall k :: 0 <= k < |snapshots[1..]| ==> snapshots[1..][k] == snapshots[k + 1];
      WaitReturnsFirstPending(snapshots[1..], final, after, kind);
      if final in snapshots && snapshots[0] != final {
        assert final in snapshots[1..];
      }
    }
  }

  /** Chained waits deliver, in log order and without repetition or omission, what the
      log owes the caller: always a prefix of it, and all of it once a wait that saw
      the final log has timed out. */
  lemma {:induction false} ChainedWaitsDeliverInOrder(
    waits: seq<seq<seq<Line>>>, final: seq<Line>, after: nat, kind: string)
    requires OnTheWayTo(waits, final) && IncreasingIds(Surviving(final))
    ensures Delivered(waits, after, kind) <= Pending(Surviving(final), after, kind)
    ensures var d := Delivered(waits, after, kind);
      |d| < |waits| && final in waits[|d|] ==> d == Pending(Surviving(final), after, kind)
    decreases |waits|
  {
    if waits != [] {
      var owed := Pending(Surviving(final), after, kind);
      WaitReturnsFirstPending(waits[0], final, after, kind);
      var r := WaitResult(waits[0], after, kind);
      if r.Some? {
        CursorDropsTheFirst(Surviving(final), after, kind);
        assert OnTheWayTo(waits[1..], final) by {
          forall w, k | 0 <= w < |waits[1..]| && 0 <= k < |waits[1..][w]|
            ensures waits[1..][w][k] <= final
          {
            assert waits[1..][w] == waits[w + 1];
          }
        }
        ChainedWaitsDeliverInOrder(waits[1..], final, r.value.id.value, kind);
        assert owed == [owed[0]] + owed[1..];
      }
    }
  }

  lemma {:induction false} MaxIdBoundsAll(events: seq<Event>, i: nat)
    requires i < |events| && events[i].id.Some?
    ensures events[i].id.value <= MaxId(events)
  {
    if i > 0 {
      MaxIdBoundsAll(events[1..], i - 1);
    }
  }

  lemma {:induction false} MaxIdIsAnId(events: seq<Event>)
    ensures MaxId(events) == 0 || exists i :: 0 <= i < |events| && events[i].id == Some(MaxId(events))
  {
    if events != [] {
      MaxIdIsAnId(events[1..]);
      if MaxId(events) != 0 && MaxId(events) == MaxId(events[1..]) {
        var i :| 0 <= i < |events[1..]| && events[1..][i].id == Some(MaxId(events));
        assert events[i + 1].id == Some(MaxId(events));
      }
    }
  }

  lemma LaterIdsAreAbove(before: seq<Event>, later: seq<Event>)
    requires IncreasingIds(before + later)
    requires forall i :: 0 <= i < |later| && later[i].id.Some? ==> later[i].id.value > 0
    ensures forall i :: 0 <= i < |later| && later[i].id.Some? ==> later[i].id.value > MaxId(before)
  {
    MaxIdIsAnId(before);
    forall i | 0 <= i < |later| && later[i].id.Some?
      ensures later[i].id.value > MaxId(before)
    {
      assert later[i] == (before + later)[|before| + i];
      if MaxId(before) != 0 {
        var k :| 0 <= k < |before| && before[k].id == Some(MaxId(before));
        assert (before + later)[k] == before[k];
      }
    }
  }

  /** Above the largest id of a first part only the second part is pending. */
  lemma OnlyLaterIsPending(before: seq<Event>, later: seq<Event>, kind: string)
    requires IncreasingIds(before + later)
    requires forall i :: 0 <= i < |later| && later[i].id.Some? ==> later[i].id.value > 0
    ensures Pending(before + later, MaxId(before), kind) == Pending(later, 0, kind)
  {
    forall i | 0 <= i < |before| && before[i].id.Some?
      ensures before[i].id.value <= MaxId(before)
    {
      MaxIdBoundsAll(before, i);
    }
    NothingPendingBelow(before, MaxId(before), kind);
    PendingSplits(before, later, MaxId(before), kind);
    LaterIdsAreAbove(before, later);
    SameAboveCursor(later, MaxId(before), 0, kind);
  }

  lemma WantedIsNew(events: seq<Event>, e: Event, kind: string)
    requires Wanted(e, MaxId(events), kind)
    ensures e !in events
  {
    if e in events {
      var i :| 0 <= i < |events| && events[i] == e;
      MaxIdBoundsAll(events, i);
    }
  }

  /** Without a cursor, the events present at the first read are passed over, and what
      the caller is owed is exactly what is appended after that read. */
  lemma NoCursorMeansOnlyLaterEvents(existing: seq<Line>, polls: seq<seq<Line>>, final: seq<Line>, kind: string)
    requires existing <= final && (forall k :: 0 <= k < |polls| ==> polls[k] <= final)
    requires IncreasingIds(Surviving(final))
    requires forall e :: e in Surviving(final) && e.id.Some? ==> e.id.value > 0
    ensures Surviving(existing) <= Surviving(final)
    ensures var start := StartAfter(Surviving(existing), None);
      var later := Surviving(final)[|Surviving(existing)|..];
      && Pending(Surviving(final), start, kind) == Pending(later, 0, kind)
      && (var r := WaitResult([existing] + polls, start, kind);
          r.Some? ==>
            r.value !in Surviving(existing) && Pending(later, 0, kind) != [] && r.value == Pending(later, 0, kind)[0])
  {
    var before := Surviving(existing);
    var all := Surviving(final);
    ReadGrowsWithTheFile(existing, final);
    var later := all[|before|..];
    var start := MaxId(before);
    assert all == before + later;
    assert forall i :: 0 <= i < |later| ==> later[i] in all;
    OnlyLaterIsPending(before, later, kind);
    var snapshots := [existing] + polls;
    WaitReturnsFirstPending(snapshots, final, start, kind);
    var r := WaitResult(snapshots, start, kind);
    if r.Some? {
      PendingAreMembers(all, start, kind, 0);
      WantedIsNew(before, r.value, kind);
    }
  }

  // ---------- what waits deliver, event by event ----------

  function EventOf(after: nat, kind: string): Event -> bool {
    (e: Event) => e.kind == kind && e.id.Some? && e.id.value > after
  }

  lemma {:induction false} PendingIsAt(events: seq<Event>, after: nat, kind: string) returns (at: seq<nat>)
    ensures IsAt(Pending(events, after, kind), events, at) && AreWhere(at, events, EventOf(after, kind))
  {
    at := [];
    if events != [] {
      at := PendingIsAt(events[1..], after, kind);
      OneMoreInFront(events[0], Pending(events[1..], after, kind), events[1..], at, EventOf(after, kind));
      assert events == [events[0]] + events[1..];
      at := if Wanted(events[0], after, kind) then [0] + Shifted(at) else Shifted(at);
    }
  }

  /** Chained waits deliver events of the type above the cursor from places of the log that
      go up, leaving out none before the last they deliver, and none at all once a wait that
      saw the final log has timed out. */
  lemma ChainedWaitsDeliverTheEvents(waits: seq<seq<seq<Line>>>, final: seq<Line>, after: nat, kind: string)
      returns (at: seq<nat>)
    requires OnTheWayTo(waits, final) && IncreasingIds(Surviving(final))
    ensures var log, d := Surviving(final), Delivered(waits, after, kind);
      && |at| == |d|
      && (forall i, j :: 0 <= i < j < |at| ==> at[i] < at[j])
      && (forall i :: 0 <= i < |at| ==>
            at[i] < |log| && d[i] == log[at[i]] && d[i].kind == kind && d[i].id.Some? && d[i].id.value > after)
      && (forall i :: 0 <= i < |log| && log[i].kind == kind && log[i].id.Some? && log[i].id.value > after ==>
            i in at || (forall k :: 0 <= k < |at| ==> at[k] < i))
      && (|d| < |waits| && final in waits[|d|] ==>
            forall i :: 0 <= i < |log| && log[i].kind == kind && log[i].id.Some? && log[i].id.value > after ==> i in at)
  {
    var owed := Pending(Surviving(final), after, kind);
    var all := PendingIsAt(Surviving(final), after, kind);
    ChainedWaitsDeliverInOrder(waits, final, after, kind);
    var d := Delivered(waits, after, kind);
    at := all[..|d|];
    FrontIsAt(owed, Surviving(final), all, |d|);
    assert owed[..|d|] == d;
    forall i | 0 <= i < |at|
      ensures EventOf(after, kind)(Surviving(final)[at[i]])
    {
      assert all[i] in all;
    }
    assert |d| == |owed| ==> at == all;
  }
}
