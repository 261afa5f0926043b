/**
What the counter and the log of src/events.rs promise about event ids.
*/
module EventIds {
  import opened Common
  import opened EventProtocol

  // Over every interleaving of the step system, two regimes are sound: a counter that is
  // never lost, with gaps allowed, and a counter that may be lost at any time, with no
  // gap. Their union is not: `LostCounterAfterGapRepeatsAnId` is a run.

  ghost predicate Increasing(log: seq<Record>) {
    forall i, j :: 0 <= i < j < |log| ==> log[i].id < log[j].id
  }

  ghost predicate AtMost(log: seq<Record>, n: nat) {
    forall i :: 0 <= i < |log| ==> log[i].id <= n
  }

  /** The ids are exactly 1, 2, ..., n in order. */
  ghost predicate Dense(log: seq<Record>) {
    forall i :: 0 <= i < |log| ==> log[i].id == i + 1
  }

  ghost predicate Writing(s: State) {
    exists p :: p in s.procs && s.procs[p].Truncated?
  }

  // ---------- regime 1: the counter is never lost ----------

  /** The step does not lose the counter: neither by removing or corrupting the file
      nor by dying between truncating and writing it. */
  predicate CounterSurvives(s: State, a: Step) {
    match a
    case LoseCounter(_) => false
    case Crash(p) => p in s.procs ==> !s.procs[p].Truncated?
    case Abort(p) => p in s.procs ==> !s.procs[p].Truncated?
    case _ => true
  }

  /** All other steps keep the counter. */
  lemma CounterSurvivesMeans(s: State, a: Step)
    ensures CounterSurvives(s, a) <==>
      && !a.LoseCounter?
      && ((a.Crash? || a.Abort?) && a.p in s.procs ==> !s.procs[a.p].Truncated?)
  {
  }

  ghost predicate CounterNeverLost(s: State, steps: seq<Step>)
    requires Runnable(s, steps)
    decreases |steps|
  {
    steps == [] || (CounterSurvives(s, steps[0]) && CounterNeverLost(Next(s, steps[0]), steps[1..]))
  }

  /** The counter file can be trusted: no id in the log is above it. */
  ghost predicate Covered(s: State) {
    (s.counter.Value? || s.log == []) && AtMost(s.log, CounterValue(s.counter, s.log))
  }

  /** What each process inside the critical section may rely on. */
  ghost predicate NextIdFresh(s: State) {
    forall p :: p in s.procs ==> FreshFor(s, s.procs[p])
  }

  ghost predicate FreshFor(s: State, pc: Pc) {
    match pc
    case Counted(n, _) => n == CounterValue(s.counter, s.log)
    case Truncated(id, _) => 0 < id && AtMost(s.log, id - 1)
    case Stamped(id, _) => 0 < id && AtMost(s.log, id - 1) && s.counter == Value(id)
    case _ => true
  }

  ghost predicate IdInv(s: State) {
    Increasing(s.log) && (Writing(s) || Covered(s)) && NextIdFresh(s)
  }

  lemma OnlyOneInside(s: State, p: Pid, q: Pid)
    requires LockInv(s)
    requires p in s.procs && q in s.procs && s.procs[p].PastAcquisition() && s.procs[q].PastAcquisition()
    ensures p == q
  {
  }

  lemma OthersAreOutside(s: State, p: Pid, q: Pid)
    requires LockInv(s) && p in s.procs && q in s.procs && s.procs[p].PastAcquisition() && p != q
    ensures !s.procs[q].PastAcquisition()
  {
  }

  lemma AppendKeepsIncreasing(log: seq<Record>, r: Record)
    requires Increasing(log) && 0 < r.id && AtMost(log, r.id - 1)
    ensures Increasing(log + [r]) && AtMost(log + [r], r.id)
  {
  }

  lemma AppendKeepsCovering(s: State, p: Pid)
    requires Enabled(s, Append(p)) && Increasing(s.log) && NextIdFresh(s)
    ensures Covered(Next(s, Append(p)))
  {
    assert FreshFor(s, s.procs[p]);
    AppendKeepsIncreasing(s.log, Record(s.procs[p].id, s.procs[p].forced));
  }

  lemma WriterStays(s: State, a: Step, q: Pid)
    requires Enabled(s, a) && CounterSurvives(s, a) && !a.WriteCounter?
    requires q in s.procs && s.procs[q].Truncated?
    ensures q in Next(s, a).procs && Next(s, a).procs[q].Truncated?
  {
  }

  lemma OtherStepsKeepCovering(s: State, a: Step)
    requires Covered(s) && NextIdFresh(s) && Enabled(s, a) && CounterSurvives(s, a)
    requires !a.Truncate? && !a.Append?
    ensures Covered(Next(s, a))
  {
  }

  lemma CoveringKept(s: State, a: Step)
    requires IdInv(s) && Enabled(s, a) && CounterSurvives(s, a)
    ensures Writing(Next(s, a)) || Covered(Next(s, a))
  {
    if a.Truncate? {
      assert Next(s, a).procs[a.p].Truncated?;
    } else if a.Append? {
      AppendKeepsCovering(s, a.p);
    } else if Covered(s) {
      OtherStepsKeepCovering(s, a);
    } else if a.WriteCounter? {
      assert FreshFor(s, s.procs[a.p]);
    } else {
      var q :| q in s.procs && s.procs[q].Truncated?;
      WriterStays(s, a, q);
    }
  }

  lemma ActorStaysFresh(s: State, a: Step)
    requires IdInv(s) && Enabled(s, a) && CounterSurvives(s, a) && a.p in s.procs
    requires s.procs[a.p].PastAcquisition() ==> !Writing(s) || s.procs[a.p].Truncated?
    ensures FreshFor(Next(s, a), Next(s, a).procs[a.p])
  {
  }

  lemma OthersStayFresh(s: State, a: Step, p: Pid)
    requires LockInv(s) && NextIdFresh(s) && Enabled(s, a) && CounterSurvives(s, a) && p in s.procs && p != a.p
    ensures p in Next(s, a).procs && FreshFor(Next(s, a), Next(s, a).procs[p])
  {
    assert Next(s, a).procs[p] == s.procs[p];
    if a.p in s.procs && s.procs[a.p].PastAcquisition() {
      OthersAreOutside(s, a.p, p);
    }
  }

  lemma NextIdStaysFresh(s: State, a: Step)
    requires LockInv(s) && IdInv(s) && Enabled(s, a) && CounterSurvives(s, a)
    ensures NextIdFresh(Next(s, a))
  {
    forall p | p in Next(s, a).procs
      ensures FreshFor(Next(s, a), Next(s, a).procs[p])
    {
      if p == a.p {
        if s.procs[p].PastAcquisition() && Writing(s) {
          var q :| q in s.procs && s.procs[q].Truncated?;
          OnlyOneInside(s, p, q);
        }
        ActorStaysFresh(s, a);
      } else {
        OthersStayFresh(s, a, p);
      }
    }
  }

  lemma StepKeepsIdInv(s: State, a: Step)
    requires LockInv(s) && IdInv(s) && Enabled(s, a) && CounterSurvives(s, a)
    ensures IdInv(Next(s, a))
  {
    if a.Append? {
      AppendKeepsIncreasing(s.log, Record(s.procs[a.p].id, s.procs[a.p].forced));
    }
    CoveringKept(s, a);
    NextIdStaysFresh(s, a);
  }

  lemma {:induction false} RunKeepsIdInv(s: State, steps: seq<Step>)
    requires LockInv(s) && IdInv(s) && Runnable(s, steps) && CounterNeverLost(s, steps)
    ensures LockInv(Exec(s, steps)) && IdInv(Exec(s, steps))
    decreases |steps|
  {
    if steps != [] {
      StepKeepsLockInv(s, steps[0]);
      StepKeepsIdInv(s, steps[0]);
      RunKeepsIdInv(Next(s, steps[0]), steps[1..]);
    }
  }

  /** Ids never repeat and never go back, and no id is above the counter unless the
      counter is being written that very moment. Crashes may leave gaps. */
  lemma IdsStrictlyIncrease(s: State, steps: seq<Step>)
    requires Start(s) && Increasing(s.log) && Covered(s)
    requires Runnable(s, steps) && CounterNeverLost(s, steps)
    ensures var t := Exec(s, steps);
      Increasing(t.log) && (!Writing(t) ==> AtMost(t.log, CounterValue(t.counter, t.log)))
  {
    StartHasLockInv(s);
    RunKeepsIdInv(s, steps);
  }

  /** The log only ever grows at its end. */
  lemma {:induction false} LogOnlyGrows(s: State, steps: seq<Step>)
    requires Runnable(s, steps)
    ensures s.log <= Exec(s, steps).log
    decreases |steps|
  {
    if steps != [] {
      LogOnlyGrows(Next(s, steps[0]), steps[1..]);
    }
  }

  // ---------- the hard stop ----------

  ghost predicate HardStopInv(s: State) {
    && (forall i :: 0 <= i < |s.log| && !s.log[i].forced ==> s.log[i].id <= HARD_STOP_AT)
    && (forall p :: p in s.procs ==>
          match s.procs[p]
          case Truncated(id, forced) => forced || id <= HARD_STOP_AT
          case Stamped(id, forced) => forced || id <= HARD_STOP_AT
          case _ => true)
  }

  lemma {:induction false} UnforcedIdsStopAtTheLimit(s: State, steps: seq<Step>)
    requires Runnable(s, steps) && HardStopInv(s)
    ensures HardStopInv(Exec(s, steps))
    decreases |steps|
  {
    if steps != [] {
      UnforcedIdsStopAtTheLimit(Next(s, steps[0]), steps[1..]);
    }
  }

  /** With no forced emit no id ever exceeds the hard stop, whatever happens to the
      counter and whoever crashes. */
  lemma NoIdAboveTheHardStop(s: State, steps: seq<Step>, i: nat)
    requires Start(s) && s.log == [] && Runnable(s, steps)
    requires forall k :: 0 <= k < |steps| && steps[k].ReadCounter? ==> !steps[k].force
    requires i < |Exec(s, steps).log|
    ensures Exec(s, steps).log[i].id <= 50_000
  {
    UnforcedIdsStopAtTheLimit(s, steps);
    NothingForced(s, steps);
  }

  ghost predicate AllUnforced(s: State) {
    && (forall i :: 0 <= i < |s.log| ==> !s.log[i].forced)
    && (forall p :: p in s.procs ==>
          match s.procs[p]
          case Counted(_, forced) => !forced
          case Truncated(_, forced) => !forced
          case Stamped(_, forced) => !forced
          case _ => true)
  }

  lemma StepForcesNothing(s: State, a: Step)
    requires Enabled(s, a) && AllUnforced(s) && (a.ReadCounter? ==> !a.force)
    ensures AllUnforced(Next(s, a))
  {
  }

  lemma {:induction false} NothingForced(s: State, steps: seq<Step>)
    requires Runnable(s, steps) && AllUnforced(s)
    requires forall k :: 0 <= k < |steps| && steps[k].ReadCounter? ==> !steps[k].force
    ensures AllUnforced(Exec(s, steps))
    decreases |steps|
  {
    if steps != [] {
      StepForcesNothing(s, steps[0]);
      NothingForced(Next(s, steps[0]), steps[1..]);
    }
  }

  // ---------- regime 2: no gap, the counter may be lost at any time ----------

  /** The step leaves no gap: nobody dies or gives up between counter and append. */
  predicate LeavesNoGap(s: State, a: Step) {
    match a
    case Crash(p) => p in s.procs ==> !s.procs[p].Stamped?
    case Abort(p) => p in s.procs ==> !s.procs[p].Stamped?
    case _ => true
  }

  ghost predicate GapFree(s: State, steps: seq<Step>)
    requires Runnable(s, steps)
    decreases |steps|
  {
    steps == [] || (LeavesNoGap(s, steps[0]) && GapFree(Next(s, steps[0]), steps[1..]))
  }

  ghost predicate Stamping(s: State) {
    exists p :: p in s.procs && s.procs[p].Stamped?
  }

  /** A readable counter is exact, or one ahead between counter write and append. */
  ghost predicate CounterExact(s: State) {
    s.counter.Value? ==> s.counter.count == |s.log| || (s.counter.count == |s.log| + 1 && Stamping(s))
  }

  ghost predicate NextIdKnown(s: State) {
    forall p :: p in s.procs ==> KnownFor(s, s.procs[p])
  }

  ghost predicate KnownFor(s: State, pc: Pc) {
    match pc
    case Counted(n, _) => n == |s.log|
    case Truncated(id, _) => id == |s.log| + 1 && !s.counter.Value?
    case Stamped(id, _) => id == |s.log| + 1 && (s.counter.Value? ==> s.counter.count == id)
    case _ => true
  }

  ghost predicate DenseInv(s: State) {
    Dense(s.log) && CounterExact(s) && NextIdKnown(s)
  }

  lemma CounterExactKept(s: State, a: Step)
    requires LockInv(s) && DenseInv(s) && Enabled(s, a) && LeavesNoGap(s, a)
    ensures CounterExact(Next(s, a))
  {
    var t := Next(s, a);
    if a.WriteCounter? {
      assert t.procs[a.p].Stamped?;
    } else if Stamping(s) && !a.Append? {
      var q :| q in s.procs && s.procs[q].Stamped?;
      assert q in t.procs && t.procs[q].Stamped?;
    }
  }

  lemma ActorStaysKnown(s: State, a: Step)
    requires DenseInv(s) && Enabled(s, a) && LeavesNoGap(s, a) && !a.LoseCounter? && a.p in s.procs
    requires s.procs[a.p].PastAcquisition() ==> !Stamping(s) || s.procs[a.p].Stamped?
    ensures KnownFor(Next(s, a), Next(s, a).procs[a.p])
  {
  }

  lemma OthersStayKnown(s: State, a: Step, p: Pid)
    requires LockInv(s) && NextIdKnown(s) && Enabled(s, a) && LeavesNoGap(s, a)
    requires p in s.procs && Actor(a) != Some(p)
    ensures p in Next(s, a).procs && KnownFor(Next(s, a), Next(s, a).procs[p])
  {
    assert Next(s, a).procs[p] == s.procs[p];
    if !a.LoseCounter? && a.p in s.procs && s.procs[a.p].PastAcquisition() {
      OthersAreOutside(s, a.p, p);
    }
  }

  lemma NextIdStaysKnown(s: State, a: Step)
    requires LockInv(s) && DenseInv(s) && Enabled(s, a) && LeavesNoGap(s, a)
    ensures NextIdKnown(Next(s, a))
  {
    forall p | p in Next(s, a).procs
      ensures KnownFor(Next(s, a), Next(s, a).procs[p])
    {
      if Actor(a) == Some(p) {
        if s.procs[p].PastAcquisition() && Stamping(s) {
          var q :| q in s.procs && s.procs[q].Stamped?;
          OnlyOneInside(s, p, q);
        }
        ActorStaysKnown(s, a);
      } else {
        OthersStayKnown(s, a, p);
      }
    }
  }

  lemma StepKeepsDenseInv(s: State, a: Step)
    requires LockInv(s) && DenseInv(s) && Enabled(s, a) && LeavesNoGap(s, a)
    ensures DenseInv(Next(s, a))
  {
    CounterExactKept(s, a);
    NextIdStaysKnown(s, a);
  }

  lemma {:induction false} RunKeepsDenseInv(s: State, steps: seq<Step>)
    requires LockInv(s) && DenseInv(s) && Runnable(s, steps) && GapFree(s, steps)
    ensures LockInv(Exec(s, steps)) && DenseInv(Exec(s, steps))
    decreases |steps|
  {
    if steps != [] {
      StepKeepsLockInv(s, steps[0]);
      StepKeepsDenseInv(s, steps[0]);
      RunKeepsDenseInv(Next(s, steps[0]), steps[1..]);
    }
  }

  /** Losing, emptying or corrupting the counter at any time does no harm as long as
      no emit dies between counter and append: the ids stay exactly 1..n, and
      whoever reads the counter next, lost or not, is led to n + 1. */
  lemma IdsStayDense(s: State, steps: seq<Step>)
    requires Start(s) && Dense(s.log) && (s.counter.Value? ==> s.counter.count == |s.log|)
    requires Runnable(s, steps) && GapFree(s, steps)
    ensures var t := Exec(s, steps);
      Dense(t.log) && (!Stamping(t) ==> CounterValue(t.counter, t.log) == |t.log|)
  {
    StartHasLockInv(s);
    RunKeepsDenseInv(s, steps);
  }

  ghost predicate Positive(log: seq<Record>) {
    forall i :: 0 <= i < |log| ==> 0 < log[i].id
  }

  /** Counting lines finds a number that no id exceeds exactly when the log has no gap. */
  lemma CountCoversIffDense(log: seq<Record>)
    requires Increasing(log) && Positive(log)
    ensures AtMost(log, |log|) <==> Dense(log)
  {
    IdsOutrunIndices(log);
    if AtMost(log, |log|) {
      forall i | 0 <= i < |log|
        ensures log[i].id == i + 1
      {
        IdsLeaveRoom(log, i);
      }
    }
  }

  /** The first emit after the counter is lost keeps the log in order exactly when the
      log has no gap. */
  lemma HealedEmitKeepsOrderIffDense(log: seq<Record>, forced: bool)
    requires Increasing(log) && Positive(log)
    ensures Increasing(log + [Record(|log| + 1, forced)]) <==> Dense(log)
  {
    CountCoversIffDense(log);
    var longer := log + [Record(|log| + 1, forced)];
    if Increasing(longer) {
      forall i | 0 <= i < |log|
        ensures log[i].id <= |log|
      {
        assert longer[i].id < longer[|log|].id;
      }
    } else {
      var i, j :| 0 <= i < j < |longer| && longer[j].id <= longer[i].id;
      assert j == |log|;
    }
  }

  lemma {:induction false} IdsOutrunIndices(log: seq<Record>)
    requires Increasing(log) && Positive(log)
    ensures forall i :: 0 <= i < |log| ==> i + 1 <= log[i].id
    decreases |log|
  {
    if log != [] {
      IdsOutrunIndices(log[..|log| - 1]);
      assert forall i :: 0 <= i < |log| - 1 ==> log[..|log| - 1][i] == log[i];
      if |log| > 1 {
        assert log[|log| - 2].id < log[|log| - 1].id;
      }
    }
  }

  lemma {:induction false} IdsLeaveRoom(log: seq<Record>, i: nat)
    requires Increasing(log) && AtMost(log, |log|) && i < |log|
    ensures log[i].id <= i + 1
    decreases |log| - i
  {
    if i + 1 < |log| {
      IdsLeaveRoom(log, i + 1);
      assert log[i].id < log[i + 1].id;
    }
  }

  // ---------- whole emits ----------

  /** Process `p` takes the free lock. */
  lemma TakeLock(s: State, p: Pid, i: Inode) returns (steps: seq<Step>)
    requires At(s, p, Idle) && s.lock == None && i !in s.links.Values
    ensures Leads(s, steps, Set(s, p, Locked).(lock := Some(i), creator := s.creator[i := p]))
    ensures steps == [Create(p, i), WriteOwner(p, true)]
  {
    var s1 := Set(s, p, Creating).(lock := Some(i), creator := s.creator[i := p]);
    var s2 := Set(s, p, Locked).(lock := Some(i), creator := s.creator[i := p]);
    Overwrite(s.procs, p, Creating, Locked);
    steps := Walk(s, [], s, Create(p, i), s1, {p});
    steps := Walk(s, steps, s1, WriteOwner(p, true), s2, {p});
  }

  lemma WriteNextId(s: State, p: Pid) returns (steps: seq<Step>)
    requires p in s.procs && s.procs[p].Counted? && MayEmit(s.procs[p])
    ensures var id := s.procs[p].count + 1;
      Leads(s, steps, Set(s, p, Stamped(id, s.procs[p].forced)).(counter := Value(id)))
    ensures steps == [Truncate(p), WriteCounter(p)]
  {
    var id := s.procs[p].count + 1;
    var f := s.procs[p].forced;
    var s1 := Set(s, p, Truncated(id, f)).(counter := Unreadable);
    var s2 := Set(s, p, Stamped(id, f)).(counter := Value(id));
    Overwrite(s.procs, p, Truncated(id, f), Stamped(id, f));
    steps := Walk(s, [], s, Truncate(p), s1, {p});
    steps := Walk(s, steps, s1, WriteCounter(p), s2, {p});
  }

  /** Holding the lock, it reads the counter and writes the next number. */
  lemma StampNextId(s: State, p: Pid, force: bool) returns (steps: seq<Step>)
    requires At(s, p, Locked) && (force || CounterValue(s.counter, s.log) < HARD_STOP_AT)
    ensures var id := CounterValue(s.counter, s.log) + 1;
      Leads(s, steps, Set(s, p, Stamped(id, force)).(counter := Value(id)))
    ensures steps == [ReadCounter(p, force), Truncate(p), WriteCounter(p)]
  {
    var n := CounterValue(s.counter, s.log);
    var counted := Next(s, ReadCounter(p, force));
    OneStep(s, ReadCounter(p, force));
    var others := WriteNextId(counted, p);
    Overwrite(s.procs, p, Counted(n, force), Stamped(n + 1, force));
    Chain(s, [ReadCounter(p, force)], counted, others,
          Set(counted, p, Stamped(n + 1, force)).(counter := Value(n + 1)));
    steps := [ReadCounter(p, force)] + others;
  }

  /** An emit by `p` up to the moment the counter is written. */
  lemma EmitUntilStamped(s: State, p: Pid, i: Inode, force: bool) returns (steps: seq<Step>)
    requires At(s, p, Idle) && s.lock == None && i !in s.links.Values
    requires force || CounterValue(s.counter, s.log) < HARD_STOP_AT
    ensures var id := CounterValue(s.counter, s.log) + 1;
      Leads(s, steps, Set(s, p, Stamped(id, force))
        .(lock := Some(i), creator := s.creator[i := p], counter := Value(id)))
    ensures steps == [Create(p, i), WriteOwner(p, true)] + [ReadCounter(p, force), Truncate(p), WriteCounter(p)]
  {
    var id := CounterValue(s.counter, s.log) + 1;
    var locked := Set(s, p, Locked).(lock := Some(i), creator := s.creator[i := p]);
    var first := TakeLock(s, p, i);
    var second := StampNextId(locked, p, force);
    Overwrite(s.procs, p, Locked, Stamped(id, force));
    Chain(s, first, locked, second, Set(locked, p, Stamped(id, force)).(counter := Value(id)));
    steps := first + second;
  }

  lemma FinishEmit(s: State, p: Pid) returns (steps: seq<Step>)
    requires p in s.procs && s.procs[p].Stamped?
    ensures Leads(s, steps, Set(s, p, Idle)
      .(lock := None, log := s.log + [Record(s.procs[p].id, s.procs[p].forced)]))
    ensures steps == [Append(p), Release(p)]
  {
    var s1 := Set(s, p, Releasing).(log := s.log + [Record(s.procs[p].id, s.procs[p].forced)]);
    var s2 := Set(s, p, Idle).(lock := None, log := s1.log);
    Overwrite(s.procs, p, Releasing, Idle);
    steps := Walk(s, [], s, Append(p), s1, {p});
    steps := Walk(s, steps, s1, Release(p), s2, {p});
  }

  /** The system calls of one emit that nothing disturbs. */
  function EmitSteps(p: Pid, i: Inode, force: bool): seq<Step> {
    [Create(p, i), WriteOwner(p, true)] + [ReadCounter(p, force), Truncate(p), WriteCounter(p)]
    + [Append(p), Release(p)]
  }

  /** What such an emit leaves behind. */
  function AfterEmit(s: State, p: Pid, i: Inode, force: bool): State {
    var id := CounterValue(s.counter, s.log) + 1;
    s.(creator := s.creator[i := p], counter := Value(id), log := s.log + [Record(id, force)])
  }

  lemma WholeEmit(s: State, p: Pid, i: Inode, force: bool)
    requires At(s, p, Idle) && s.lock == None && i !in s.links.Values
    requires force || CounterValue(s.counter, s.log) < HARD_STOP_AT
    ensures Leads(s, EmitSteps(p, i, force), AfterEmit(s, p, i, force))
  {
    var first := EmitUntilStamped(s, p, i, force);
    var t := Exec(s, first);
    var second := FinishEmit(t, p);
    RunsCompose(s, first, second);
    Overwrite(s.procs, p, t.procs[p], Idle);
    assert s.procs[p := Idle] == s.procs;
  }

  lemma Chain(s: State, a: seq<Step>, t: State, b: seq<Step>, u: State)
    requires Leads(s, a, t) && Leads(t, b, u)
    ensures Leads(s, a + b, u)
  {
    RunsCompose(s, a, b);
  }

  // ---------- emits after the counter was lost ----------

  /** The system calls of `k` undisturbed emits in a row. */
  function EmitsSteps(p: Pid, i: Inode, force: bool, k: nat): seq<Step> {
    if k == 0 then [] else EmitsSteps(p, i, force, k - 1) + EmitSteps(p, i, force)
  }

  /** The lines with the ids from `n + 1` to `n + k`. */
  function Numbered(n: nat, force: bool, k: nat): seq<Record> {
    seq(k, j requires 0 <= j => Record(n + 1 + j, force))
  }

  /** The first reads no counter and counts lines; the others read what the one
      before them wrote. */
  lemma {:induction false} EmitsInARow(s: State, p: Pid, i: Inode, force: bool, k: nat)
    requires At(s, p, Idle) && s.lock == None && i !in s.links.Values && !s.counter.Value?
    requires force || |s.log| + k <= HARD_STOP_AT
    ensures Runnable(s, EmitsSteps(p, i, force, k))
    ensures var t := Exec(s, EmitsSteps(p, i, force, k));
      && t.procs == s.procs && t.lock == None && t.links == s.links
      && t.log == s.log + Numbered(|s.log|, force, k)
      && CounterValue(t.counter, t.log) == |s.log| + k
  {
    if k == 0 {
      assert s.log + Numbered(|s.log|, force, 0) == s.log;
    } else {
      EmitsInARow(s, p, i, force, k - 1);
      var before := EmitsSteps(p, i, force, k - 1);
      var t := Exec(s, before);
      WholeEmit(t, p, i, force);
      RunsCompose(s, before, EmitSteps(p, i, force));
      assert Numbered(|s.log|, force, k) == Numbered(|s.log|, force, k - 1) + [Record(|s.log| + k, force)];
    }
  }

  ghost predicate Repeats(log: seq<Record>) {
    exists i, j :: 0 <= i < j < |log| && log[i].id == log[j].id
  }

  lemma NumberedRepeatsIffAhead(log: seq<Record>, force: bool, k: nat)
    requires Increasing(log)
    ensures Repeats(log + Numbered(|log|, force, k))
      <==> exists i :: 0 <= i < |log| && |log| < log[i].id <= |log| + k
  {
    var longer := log + Numbered(|log|, force, k);
    if i :| 0 <= i < |log| && |log| < log[i].id <= |log| + k {
      var j := log[i].id - 1;
      assert longer[i].id == longer[j].id;
    }
    if Repeats(longer) {
      var i, j :| 0 <= i < j < |longer| && longer[i].id == longer[j].id;
      assert i < |log| <= j;
      assert longer[j] == Numbered(|log|, force, k)[j - |log|];
    }
  }

  /** How far undisturbed emits get before an id comes twice: with the counter lost, `k`
      of them repeat an id if and only if the log holds one of the `k` numbers after its
      line count. Below the hard stop none of them has to be forced. */
  lemma EmitsRepeatIffIdAhead(s: State, p: Pid, i: Inode, force: bool, k: nat)
    requires At(s, p, Idle) && s.lock == None && i !in s.links.Values && !s.counter.Value?
    requires Increasing(s.log) && (force || |s.log| + k <= HARD_STOP_AT)
    ensures Runnable(s, EmitsSteps(p, i, force, k))
    ensures Repeats(Exec(s, EmitsSteps(p, i, force, k)).log)
      <==> exists j :: 0 <= j < |s.log| && |s.log| < s.log[j].id <= |s.log| + k
  {
    EmitsInARow(s, p, i, force, k);
    NumberedRepeatsIffAhead(s.log, force, k);
  }

  /** Undisturbed emits after the loss of the counter ever repeat an id if and only if
      the log has a gap: the one that makes up for all gaps repeats the last id. */
  lemma EmitsEverRepeatIffGap(s: State, p: Pid, i: Inode, force: bool)
    requires At(s, p, Idle) && s.lock == None && i !in s.links.Values && !s.counter.Value?
    requires Increasing(s.log) && Positive(s.log)
    requires force || AtMost(s.log, HARD_STOP_AT)
    ensures !Dense(s.log) <==>
      exists k: nat :: (force || |s.log| + k <= HARD_STOP_AT)
        && Runnable(s, EmitsSteps(p, i, force, k)) && Repeats(Exec(s, EmitsSteps(p, i, force, k)).log)
  {
    CountCoversIffDense(s.log);
    if Dense(s.log) {
      forall k: nat | (force || |s.log| + k <= HARD_STOP_AT) && Runnable(s, EmitsSteps(p, i, force, k))
        ensures !Repeats(Exec(s, EmitsSteps(p, i, force, k)).log)
      {
        EmitsRepeatIffIdAhead(s, p, i, force, k);
      }
    } else {
      var j :| 0 <= j < |s.log| && |s.log| < s.log[j].id;
      EmitsRepeatIffIdAhead(s, p, i, force, s.log[j].id - |s.log|);
    }
  }

  ghost predicate NobodyStops(steps: seq<Step>) {
    forall k :: 0 <= k < |steps| ==> !steps[k].Crash? && !steps[k].Abort?
  }

  lemma {:induction false} EmitsNeverStop(p: Pid, i: Inode, force: bool, k: nat)
    ensures NobodyStops(EmitsSteps(p, i, force, k))
  {
    if k > 0 {
      EmitsNeverStop(p, i, force, k - 1);
      assert NobodyStops(EmitSteps(p, i, force));
    }
  }

  lemma {:induction false} NoAbortIsGapFree(s: State, steps: seq<Step>)
    requires Runnable(s, steps) && NobodyStops(steps)
    ensures GapFree(s, steps)
    decreases |steps|
  {
    if steps != [] {
      NoAbortIsGapFree(Next(s, steps[0]), steps[1..]);
    }
  }

  lemma DenseRunsNeverRepeat(s: State, steps: seq<Step>)
    requires Start(s) && !s.counter.Value? && Dense(s.log) && Runnable(s, steps) && GapFree(s, steps)
    ensures !Repeats(Exec(s, steps).log)
  {
    IdsStayDense(s, steps);
  }

  lemma GapLeadsToRepeat(s: State, p: Pid, i: Inode) returns (steps: seq<Step>)
    requires At(s, p, Idle) && s.lock == None && i !in s.links.Values && !s.counter.Value?
    requires Increasing(s.log) && Positive(s.log) && !Dense(s.log)
    ensures Runnable(s, steps) && GapFree(s, steps) && Repeats(Exec(s, steps).log)
  {
    EmitsEverRepeatIffGap(s, p, i, true);
    var k: nat :| Runnable(s, EmitsSteps(p, i, true, k)) && Repeats(Exec(s, EmitsSteps(p, i, true, k)).log);
    steps := EmitsSteps(p, i, true, k);
    EmitsNeverStop(p, i, true, k);
    NoAbortIsGapFree(s, steps);
  }

  ghost predicate SafelyRepeats(s: State, steps: seq<Step>) {
    Runnable(s, steps) && GapFree(s, steps) && Repeats(Exec(s, steps).log)
  }

  /** Every run, not only undisturbed emits: with the counter lost and no emit dying
      between counter and append from here on, an id can come twice, in whatever
      interleaving and however often the counter is lost again, if and only if the log
      already has a gap. */
  lemma RunsRepeatIffGap(s: State, p: Pid)
    requires Start(s) && p in s.procs && !s.counter.Value? && Increasing(s.log) && Positive(s.log)
    ensures !Dense(s.log) <==>
      exists steps :: SafelyRepeats(s, steps)
  {
    if Dense(s.log) {
      forall steps | Runnable(s, steps) && GapFree(s, steps)
        ensures !SafelyRepeats(s, steps)
      {
        DenseRunsNeverRepeat(s, steps);
      }
    } else {
      var steps := GapLeadsToRepeat(s, p, 0);
      assert SafelyRepeats(s, steps);
    }
  }

  // ---------- the unsound union of the two regimes ----------

  /** An emit by `p` that dies between counter and append, holding the lock. */
  lemma CrashAfterCounter(s: State, p: Pid, i: Inode) returns (steps: seq<Step>)
    requires At(s, p, Idle) && s.lock == None && i !in s.links.Values && s.guard == None
    requires CounterValue(s.counter, s.log) < HARD_STOP_AT
    ensures var id := CounterValue(s.counter, s.log) + 1;
      Leads(s, steps, Set(s, p, Crashed).(lock := Some(i), creator := s.creator[i := p], counter := Value(id)))
  {
    var id := CounterValue(s.counter, s.log) + 1;
    var m := Set(s, p, Stamped(id, false)).(lock := Some(i), creator := s.creator[i := p], counter := Value(id));
    var first := EmitUntilStamped(s, p, i, false);
    OneStep(m, Crash(p));
    Overwrite(s.procs, p, Stamped(id, false), Crashed);
    Chain(s, first, m, [Crash(p)], Next(m, Crash(p)));
    steps := first + [Crash(p)];
  }

  /** An idle process takes a crashed owner's lock over and emits. */
  lemma ReclaimAndEmit(s: State, p: Pid, i: Inode) returns (steps: seq<Step>)
    requires LockInv(s) && At(s, p, Idle) && s.guard == None && i !in s.links.Values
    requires s.lock.Some? && MayCallStale(s, s.lock.value)
    requires CounterValue(s.counter, s.log) < HARD_STOP_AT
    ensures Leads(s, steps, AfterEmit(s.(lock := None), p, i, false))
  {
    var first := ReclaimAlone(s, p);
    WholeEmit(s.(lock := None), p, i, false);
    Chain(s, first, s.(lock := None), EmitSteps(p, i, false), AfterEmit(s.(lock := None), p, i, false));
    steps := first + EmitSteps(p, i, false);
  }

  /** The counter file is removed, and the next emit counts lines. */
  lemma LoseAndEmit(s: State, p: Pid, i: Inode) returns (steps: seq<Step>)
    requires At(s, p, Idle) && s.lock == None && i !in s.links.Values && |s.log| < HARD_STOP_AT
    ensures Leads(s, steps, AfterEmit(s.(counter := Missing), p, i, false))
  {
    var m := s.(counter := Missing);
    OneStep(s, LoseCounter(Missing));
    WholeEmit(m, p, i, false);
    Chain(s, [LoseCounter(Missing)], m, EmitSteps(p, i, false), AfterEmit(m, p, i, false));
    steps := [LoseCounter(Missing)] + EmitSteps(p, i, false);
  }

  lemma CrashedOwnerHasLockInv(s: State)
    requires s == State(map[0 := Crashed, 1 := Idle], Some(0), map[0 := 0], map[], None, Value(1), [])
    ensures LockInv(s) && MayCallStale(s, 0)
  {
  }

  /** A crash between counter and append, then the loss of the counter file: the log
      ends up with the id 2 twice. */
  lemma LostCounterAfterGapRepeatsAnId() returns (s: State, steps: seq<Step>)
    ensures Start(s) && s.log == [] && s.counter == Missing && Runnable(s, steps)
    ensures Exec(s, steps).log == [Record(2, false), Record(2, false)]
  {
    s := State(map[0 := Idle, 1 := Idle], None, map[], map[], None, Missing, []);
    var t := State(map[0 := Crashed, 1 := Idle], Some(0), map[0 := 0], map[], None, Value(1), []);
    var u := AfterEmit(t.(lock := None), 1, 0, false);
    var first := CrashAfterCounter(s, 0, 0);
    CrashedOwnerHasLockInv(t);
    assert s.procs[0 := Crashed] == t.procs;
    var second := ReclaimAndEmit(t, 1, 0);
    var third := LoseAndEmit(u, 1, 0);
    Chain(s, first, t, second, u);
    Chain(s, first + second, u, third, AfterEmit(u.(counter := Missing), 1, 0, false));
    steps := first + second + third;
  }
}
