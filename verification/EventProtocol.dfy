/**
The event log of src/events.rs as a step system of any number of crashing processes.
*/
module EventProtocol {
  import opened Common

  // The processes share a directory holding the lock file, the reclaim guard, the counter
  // file and the log. Every step is one system call of one process, and any process may
  // crash at any step. Files have inode numbers, and a number may be reused once no name
  // is left for it, which is what the hard link of the reclaim protocol protects against.
  // The staleness test is an oracle that is only assumed sound: it may answer "stale" for
  // an inode whose creator has crashed, and it may always answer "not stale".

  type Pid = nat
  type Inode = nat

  const HARD_STOP_AT: nat := 50_000

  /** The counter file: absent, present but not a number, or a number. */
  datatype Counter = Missing | Unreadable | Value(count: nat)

  /** One line of the log, with whether the emit that wrote it was forced. */
  datatype Record = Record(id: nat, forced: bool)

  /** Where a process stands. `Creating` to `Releasing` lie past lock acquisition,
      `Guarding` to `Dropping` hold the reclaim guard. */
  datatype Pc =
    | Idle
    | Creating
    | Locked
    | Counted(count: nat, forced: bool)
    | Truncated(id: nat, forced: bool)
    | Stamped(id: nat, forced: bool)
    | Releasing
    | Suspecting
    | Guarding
    | Confirmed
    | Linked
    | Judged(stillStale: bool)
    | Matched(reclaimed: bool)
    | Unlinking
    | Dropping
    | Crashed
  {
    predicate PastAcquisition() {
      Creating? || Locked? || Counted? || Truncated? || Stamped? || Releasing?
    }

    predicate HoldsGuard() {
      Guarding? || Confirmed? || Linked? || Judged? || Matched? || Unlinking? || Dropping?
    }

    predicate HasLink() {
      Linked? || Judged? || Matched? || Unlinking?
    }
  }

  /** `lock` is the inode the lock path names, `links` the private hard links of
      the reclaimers, `guard` the process holding the flock. */
  datatype State = State(
    procs: map<Pid, Pc>,
    lock: Option<Inode>,
    creator: map<Inode, Pid>,
    links: map<Pid, Inode>,
    guard: Option<Pid>,
    counter: Counter,
    log: seq<Record>)

  datatype Step =
    // acquiring the lock
    | Create(p: Pid, inode: Inode)
    | WriteOwner(p: Pid, ok: bool)
    // the critical section of emit
    | ReadCounter(p: Pid, force: bool)
    | Truncate(p: Pid)
    | WriteCounter(p: Pid)
    | Append(p: Pid)
    | Abort(p: Pid)
    | Release(p: Pid)
    // reclaiming a stale lock
    | Probe(p: Pid)
    | TakeGuard(p: Pid)
    | Recheck(p: Pid, stale: bool)
    | Link(p: Pid)
    | Judge(p: Pid, stale: bool)
    | Compare(p: Pid)
    | Unlink(p: Pid)
    | RemoveLink(p: Pid)
    | DropGuard(p: Pid)
    // the environment
    | Crash(p: Pid)
    | LoseCounter(left: Counter)

  /** What reading the counter yields: its number, or else the number of log lines. */
  function CounterValue(c: Counter, log: seq<Record>): nat {
    match c
    case Value(n) => n
    case _ => |log|
  }

  predicate At(s: State, p: Pid, pc: Pc) {
    p in s.procs && s.procs[p] == pc
  }

  predicate Live(s: State, p: Pid) {
    p in s.procs && s.procs[p] != Crashed
  }

  /** The sound oracle: only a crashed creator's inode may be called stale. */
  predicate MayCallStale(s: State, i: Inode) {
    i in s.creator && !Live(s, s.creator[i])
  }

  predicate Enabled(s: State, a: Step) {
    match a
    case Create(p, i) =>
      At(s, p, Idle) && s.lock == None && forall q :: q in s.links ==> s.links[q] != i
    case WriteOwner(p, _) => At(s, p, Creating)
    case ReadCounter(p, _) => At(s, p, Locked)
    case Truncate(p) => p in s.procs && s.procs[p].Counted? && MayEmit(s.procs[p])
    case WriteCounter(p) => p in s.procs && s.procs[p].Truncated?
    case Append(p) => p in s.procs && s.procs[p].Stamped?
    case Abort(p) =>
      p in s.procs && (s.procs[p].Locked? || s.procs[p].Counted? || s.procs[p].Truncated? || s.procs[p].Stamped?)
    case Release(p) => At(s, p, Releasing)
    case Probe(p) => At(s, p, Idle) && s.lock.Some? && MayCallStale(s, s.lock.value)
    case TakeGuard(p) => At(s, p, Suspecting)
    case Recheck(p, stale) =>
      At(s, p, Guarding) && (stale ==> s.lock.Some? && MayCallStale(s, s.lock.value))
    case Link(p) => At(s, p, Confirmed)
    case Judge(p, stale) =>
      At(s, p, Linked) && p in s.links && (stale ==> MayCallStale(s, s.links[p]))
    case Compare(p) => p in s.procs && s.procs[p].Judged? && p in s.links
    case Unlink(p) => p in s.procs && s.procs[p].Matched?
    case RemoveLink(p) => At(s, p, Unlinking)
    case DropGuard(p) => At(s, p, Dropping)
    case Crash(p) => Live(s, p)
    case LoseCounter(left) => !left.Value?
  }

  /** The hard stop lets an emit past only below the limit or when forced. */
  predicate MayEmit(pc: Pc)
    requires pc.Counted?
  {
    pc.count < HARD_STOP_AT || pc.forced
  }

  function Set(s: State, p: Pid, pc: Pc): State {
    s.(procs := s.procs[p := pc])
  }

  function Next(s: State, a: Step): State
    requires Enabled(s, a)
  {
    match a
    case Create(p, i) => Set(s, p, Creating).(lock := Some(i), creator := s.creator[i := p])
    case WriteOwner(p, ok) => if ok then Set(s, p, Locked) else Set(s, p, Idle).(lock := None)
    case ReadCounter(p, force) =>
      Set(s, p, Counted(CounterValue(s.counter, s.log), force))
        .(counter := if s.counter.Unreadable? then Missing else s.counter)
    case Truncate(p) =>
      Set(s, p, Truncated(s.procs[p].count + 1, s.procs[p].forced)).(counter := Unreadable)
    case WriteCounter(p) =>
      Set(s, p, Stamped(s.procs[p].id, s.procs[p].forced)).(counter := Value(s.procs[p].id))
    case Append(p) =>
      Set(s, p, Releasing).(log := s.log + [Record(s.procs[p].id, s.procs[p].forced)])
    case Abort(p) => Set(s, p, Releasing)
    case Release(p) => Set(s, p, Idle).(lock := None)
    case Probe(p) => Set(s, p, Suspecting)
    case TakeGuard(p) =>
      if s.guard == None then Set(s, p, Guarding).(guard := Some(p)) else Set(s, p, Idle)
    case Recheck(p, stale) => Set(s, p, if stale then Confirmed else Dropping)
    case Link(p) =>
      if s.lock.Some? && p !in s.links
      then Set(s, p, Linked).(links := s.links[p := s.lock.value])
      else Set(s, p, Dropping)
    case Judge(p, stale) => Set(s, p, Judged(stale))
    case Compare(p) =>
      Set(s, p, Matched(s.procs[p].stillStale && s.lock == Some(s.links[p])))
    case Unlink(p) =>
      if s.procs[p].reclaimed then Set(s, p, Unlinking).(lock := None) else Set(s, p, Unlinking)
    case RemoveLink(p) => Set(s, p, Dropping).(links := s.links - {p})
    case DropGuard(p) => Set(s, p, Idle).(guard := None)
    case Crash(p) => Set(s, p, Crashed).(guard := if s.guard == Some(p) then None else s.guard)
    case LoseCounter(left) => s.(counter := left)
  }

  /** The process a step belongs to, if it is not the environment's. */
  function Actor(a: Step): Option<Pid> {
    if a.LoseCounter? then None else Some(a.p)
  }

  // ---------- runs ----------

  ghost predicate Runnable(s: State, steps: seq<Step>)
    decreases |steps|
  {
    steps == [] || (Enabled(s, steps[0]) && Runnable(Next(s, steps[0]), steps[1..]))
  }

  ghost function Exec(s: State, steps: seq<Step>): State
    requires Runnable(s, steps)
    decreases |steps|
  {
    if steps == [] then s else Exec(Next(s, steps[0]), steps[1..])
  }

  /** Any set of idle processes in a directory without lock, links or guard. */
  ghost predicate Start(s: State) {
    && (forall p :: p in s.procs ==> s.procs[p] == Idle)
    && s.lock == None && s.creator == map[] && s.links == map[] && s.guard == None
  }

  // ---------- the lock invariant ----------

  /** Whoever is past acquisition created the inode the lock path names. */
  ghost predicate OwnersOwn(s: State) {
    forall p :: p in s.procs && s.procs[p].PastAcquisition() ==>
      s.lock.Some? && s.lock.value in s.creator && s.creator[s.lock.value] == p
  }

  /** A lock file is never left behind by a live process that is not using it. */
  ghost predicate LockExplained(s: State) {
    s.lock.Some? ==>
      && s.lock.value in s.creator
      && s.creator[s.lock.value] in s.procs
      && (Live(s, s.creator[s.lock.value]) ==> s.procs[s.creator[s.lock.value]].PastAcquisition())
  }

  ghost predicate GuardExact(s: State) {
    forall p :: p in s.procs ==> (s.guard == Some(p) <==> s.procs[p].HoldsGuard())
  }

  ghost predicate GuardOwnerKnown(s: State) {
    s.guard.Some? ==> s.guard.value in s.procs
  }

  ghost predicate LinksExact(s: State) {
    && (forall p :: p in s.links ==> p in s.procs && s.links[p] in s.creator && s.creator[s.links[p]] in s.procs)
    && (forall p :: p in s.procs && s.procs[p] != Crashed ==> (p in s.links <==> s.procs[p].HasLink()))
  }

  /** A positive verdict of the reclaimer stays true until it acts on it. */
  ghost predicate VerdictsHold(s: State) {
    forall p :: p in s.procs && p in s.links ==>
      && (s.procs[p] == Judged(true) ==> MayCallStale(s, s.links[p]))
      && (s.procs[p] == Matched(true) ==> MayCallStale(s, s.links[p]) && s.lock == Some(s.links[p]))
  }

  ghost predicate LockInv(s: State) {
    && OwnersOwn(s) && LockExplained(s) && GuardExact(s) && GuardOwnerKnown(s)
    && LinksExact(s) && VerdictsHold(s)
  }

  lemma StartHasLockInv(s: State)
    requires Start(s)
    ensures LockInv(s)
  {
  }

  lemma LockMovesOnlyBy(s: State, a: Step)
    requires Enabled(s, a)
    ensures Next(s, a).lock != s.lock ==>
      || (a.Create? && s.lock == None)
      || ((a.WriteOwner? || a.Release?) && a.p in s.procs && s.procs[a.p].PastAcquisition())
      || (a.Unlink? && a.p in s.procs && s.procs[a.p] == Matched(true))
  {
  }

  lemma OthersKeepTheirLock(s: State, a: Step, p: Pid)
    requires LockInv(s) && Enabled(s, a) && p in s.procs && Actor(a) != Some(p) && s.procs[p].PastAcquisition()
    ensures Next(s, a).lock == s.lock && Next(s, a).creator == s.creator
  {
    LockMovesOnlyBy(s, a);
  }

  lemma ActorOwnsItsLock(s: State, a: Step)
    requires OwnersOwn(s) && Enabled(s, a) && !a.LoseCounter?
    ensures var t := Next(s, a);
      t.procs[a.p].PastAcquisition() ==>
        t.lock.Some? && t.lock.value in t.creator && t.creator[t.lock.value] == a.p
  {
  }

  lemma OwnersOwnKept(s: State, a: Step)
    requires LockInv(s) && Enabled(s, a)
    ensures OwnersOwn(Next(s, a))
  {
    var t := Next(s, a);
    forall p | p in t.procs && t.procs[p].PastAcquisition()
      ensures t.lock.Some? && t.lock.value in t.creator && t.creator[t.lock.value] == p
    {
      if Actor(a) == Some(p) {
        ActorOwnsItsLock(s, a);
      } else {
        assert t.procs[p] == s.procs[p];
        OthersKeepTheirLock(s, a, p);
      }
    }
  }

  /** A live process stops using its lock file only by removing it. */
  lemma OwnerStaysOrFreesLock(s: State, a: Step)
    requires OwnersOwn(s) && Enabled(s, a) && !a.LoseCounter? && a.p in s.procs && s.procs[a.p].PastAcquisition()
    ensures var t := Next(s, a);
      t.lock == None || t.procs[a.p] == Crashed || t.procs[a.p].PastAcquisition()
  {
  }

  lemma LockExplainedKept(s: State, a: Step)
    requires LockInv(s) && Enabled(s, a)
    ensures LockExplained(Next(s, a))
  {
    var t := Next(s, a);
    LockMovesOnlyBy(s, a);
    if t.lock.Some? && !a.Create? {
      var owner := s.creator[s.lock.value];
      assert t.creator == s.creator && owner in t.procs;
      if Live(s, owner) && Actor(a) == Some(owner) {
        OwnerStaysOrFreesLock(s, a);
      } else {
        assert Actor(a) == Some(owner) || t.procs[owner] == s.procs[owner];
      }
    }
  }

  lemma ActorGuardExact(s: State, a: Step)
    requires GuardExact(s) && GuardOwnerKnown(s) && Enabled(s, a) && !a.LoseCounter?
    ensures Next(s, a).guard == Some(a.p) <==> Next(s, a).procs[a.p].HoldsGuard()
    ensures Next(s, a).guard == s.guard || Next(s, a).guard == Some(a.p)
      || (s.guard == Some(a.p) && Next(s, a).guard == None)
    ensures s.guard.Some? && s.guard != Some(a.p) ==> Next(s, a).guard == s.guard
  {
  }

  lemma GuardExactKept(s: State, a: Step)
    requires GuardExact(s) && GuardOwnerKnown(s) && Enabled(s, a)
    ensures GuardExact(Next(s, a))
  {
    var t := Next(s, a);
    if !a.LoseCounter? {
      ActorGuardExact(s, a);
    }
    forall p | p in t.procs
      ensures t.guard == Some(p) <==> t.procs[p].HoldsGuard()
    {
      if Actor(a) != Some(p) {
        assert t.procs[p] == s.procs[p];
      }
    }
  }

  lemma GuardOwnerStaysKnown(s: State, a: Step)
    requires GuardOwnerKnown(s) && Enabled(s, a)
    ensures GuardOwnerKnown(Next(s, a))
  {
  }

  lemma LinksStayKnown(s: State, a: Step, p: Pid)
    requires LinksExact(s) && LockExplained(s) && Enabled(s, a) && p in Next(s, a).links
    ensures var t := Next(s, a);
      p in t.procs && t.links[p] in t.creator && t.creator[t.links[p]] in t.procs
  {
    if p !in s.links {
      assert Next(s, a).links[p] == s.lock.value;
    }
  }

  lemma ActorLinkExact(s: State, a: Step)
    requires Enabled(s, a) && !a.LoseCounter? && !a.Crash?
    requires a.p in s.links <==> s.procs[a.p].HasLink()
    ensures a.p in Next(s, a).links <==> Next(s, a).procs[a.p].HasLink()
  {
  }

  lemma OthersKeepTheirLink(s: State, a: Step, p: Pid)
    requires Enabled(s, a) && p in s.procs && Actor(a) != Some(p)
    ensures p in Next(s, a).procs && Next(s, a).procs[p] == s.procs[p]
    ensures p in Next(s, a).links <==> p in s.links
  {
  }

  lemma LinksStayExact(s: State, a: Step, p: Pid)
    requires LinksExact(s) && Enabled(s, a) && p in s.procs && Next(s, a).procs[p] != Crashed
    ensures p in Next(s, a).links <==> Next(s, a).procs[p].HasLink()
  {
    if Actor(a) == Some(p) {
      ActorLinkExact(s, a);
    } else {
      OthersKeepTheirLink(s, a, p);
    }
  }

  lemma LinksKept(s: State, a: Step)
    requires LockInv(s) && Enabled(s, a)
    ensures LinksExact(Next(s, a))
  {
    var t := Next(s, a);
    forall p | p in t.links
      ensures p in t.procs && t.links[p] in t.creator && t.creator[t.links[p]] in t.procs
    {
      LinksStayKnown(s, a, p);
    }
    forall p | p in t.procs && t.procs[p] != Crashed
      ensures p in t.links <==> t.procs[p].HasLink()
    {
      LinksStayExact(s, a, p);
    }
  }

  /** A crashed creator stays crashed, and a linked inode number is not reused. */
  lemma StaleVerdictStays(s: State, a: Step, i: Inode)
    requires LockInv(s) && Enabled(s, a) && MayCallStale(s, i)
    requires exists p :: p in s.links && s.links[p] == i
    ensures MayCallStale(Next(s, a), i)
  {
  }

  /** Between the identity check and the unlink nobody else moves the lock path:
      its creator is gone and every other reclaimer is kept out by the guard. */
  lemma ReclaimTargetStays(s: State, a: Step, p: Pid)
    requires LockInv(s) && Enabled(s, a) && Actor(a) != Some(p)
    requires p in s.procs && p in s.links && s.procs[p] == Matched(true)
    ensures Next(s, a).lock == s.lock
  {
    LockMovesOnlyBy(s, a);
  }

  lemma VerdictsKept(s: State, a: Step)
    requires LockInv(s) && Enabled(s, a)
    ensures VerdictsHold(Next(s, a))
  {
    var t := Next(s, a);
    forall p | p in t.procs && p in t.links
      ensures t.procs[p] == Judged(true) ==> MayCallStale(t, t.links[p])
      ensures t.procs[p] == Matched(true) ==> MayCallStale(t, t.links[p]) && t.lock == Some(t.links[p])
    {
      if t.procs[p] == Judged(true) || t.procs[p] == Matched(true) {
        assert p in s.links && t.links[p] == s.links[p];
        StaleVerdictStays(s, a, s.links[p]);
        if t.procs[p] == Matched(true) && Actor(a) != Some(p) {
          ReclaimTargetStays(s, a, p);
        }
      }
    }
  }

  lemma StepKeepsLockInv(s: State, a: Step)
    requires LockInv(s) && Enabled(s, a)
    ensures LockInv(Next(s, a))
  {
    OwnersOwnKept(s, a);
    LockExplainedKept(s, a);
    GuardExactKept(s, a);
    GuardOwnerStaysKnown(s, a);
    LinksKept(s, a);
    VerdictsKept(s, a);
  }

  // ---------- safety of the lock over every run ----------

  lemma {:induction false} RunKeepsLockInv(s: State, steps: seq<Step>)
    requires LockInv(s) && Runnable(s, steps)
    ensures LockInv(Exec(s, steps))
    decreases |steps|
  {
    if steps != [] {
      StepKeepsLockInv(s, steps[0]);
      RunKeepsLockInv(Next(s, steps[0]), steps[1..]);
    }
  }

  /** At most one live process is past lock acquisition, in every interleaving, and
      the lock path then names the inode that very process created. */
  lemma MutualExclusion(s: State, steps: seq<Step>, p: Pid, q: Pid)
    requires Start(s) && Runnable(s, steps)
    requires var t := Exec(s, steps);
      p in t.procs && q in t.procs && t.procs[p].PastAcquisition() && t.procs[q].PastAcquisition()
    ensures p == q
    ensures var t := Exec(s, steps);
      t.lock.Some? && t.lock.value in t.creator && t.creator[t.lock.value] == p
  {
    RunKeepsLockInv(s, steps);
  }

  lemma RemovalIsOwnOrStale(t: State, a: Step)
    requires LockInv(t) && Enabled(t, a) && t.lock.Some? && Next(t, a).lock == None
    ensures t.lock.value in t.creator
    ensures Actor(a) == Some(t.creator[t.lock.value]) || (a.Unlink? && !Live(t, t.creator[t.lock.value]))
  {
  }

  /** The lock name goes away only by the hand of the process that created the
      inode, or by a reclaimer once that process has crashed. */
  lemma OnlyOwnOrStaleLocksAreRemoved(s: State, steps: seq<Step>, a: Step)
    requires Start(s) && Runnable(s, steps)
    requires var t := Exec(s, steps); Enabled(t, a) && t.lock.Some? && Next(t, a).lock == None
    ensures var t := Exec(s, steps);
      && t.lock.value in t.creator
      && (Actor(a) == Some(t.creator[t.lock.value]) || (a.Unlink? && !Live(t, t.creator[t.lock.value])))
  {
    RunKeepsLockInv(s, steps);
    RemovalIsOwnOrStale(Exec(s, steps), a);
  }

  // ---------- a crashed reclaimer blocks nobody ----------

  lemma {:induction false} RunsCompose(s: State, a: seq<Step>, b: seq<Step>)
    requires Runnable(s, a) && Runnable(Exec(s, a), b)
    ensures Runnable(s, a + b) && Exec(s, a + b) == Exec(Exec(s, a), b)
    decreases |a|
  {
    if a == [] {
      assert a + b == b;
    } else {
      RunsCompose(Next(s, a[0]), a[1..], b);
      assert (a + b)[1..] == a[1..] + b;
    }
  }

  lemma OneStep(s: State, a: Step)
    requires Enabled(s, a)
    ensures Runnable(s, [a]) && Exec(s, [a]) == Next(s, a)
  {
    assert Runnable(Next(s, a), [a][1..]);
  }

  /** A run of steps taken by `who` alone, none of them a crash. */
  ghost predicate OwnRun(steps: seq<Step>, who: set<Pid>) {
    forall k :: 0 <= k < |steps| ==> !steps[k].Crash? && !steps[k].LoseCounter? && steps[k].p in who
  }

  lemma ExtendRun(s: State, steps: seq<Step>, a: Step, who: set<Pid>) returns (longer: seq<Step>)
    requires Runnable(s, steps) && Enabled(Exec(s, steps), a) && OwnRun(steps, who) && OwnRun([a], who)
    ensures Runnable(s, longer) && Exec(s, longer) == Next(Exec(s, steps), a) && OwnRun(longer, who)
    ensures longer == steps + [a]
  {
    longer := steps + [a];
    OneStep(Exec(s, steps), a);
    RunsCompose(s, steps, [a]);
    assert OwnRun(longer, who) by {
      forall k | 0 <= k < |longer|
        ensures !longer[k].Crash? && !longer[k].LoseCounter? && longer[k].p in who
      {
        if k == |steps| {
          assert longer[k] == [a][0];
        }
      }
    }
  }

  lemma Overwrite(m: map<Pid, Pc>, p: Pid, a: Pc, b: Pc)
    ensures m[p := a][p := b] == m[p := b]
  {
  }

  ghost predicate Leads(s: State, steps: seq<Step>, t: State) {
    Runnable(s, steps) && Exec(s, steps) == t
  }

  /** Appends step `a` to a run that leads from `s` to `t`. */
  lemma Walk(s: State, steps: seq<Step>, t: State, a: Step, u: State, who: set<Pid>) returns (longer: seq<Step>)
    requires Leads(s, steps, t) && OwnRun(steps, who)
    requires Enabled(t, a) && Next(t, a) == u && OwnRun([a], who)
    ensures Leads(s, longer, u) && OwnRun(longer, who) && longer == steps + [a]
  {
    longer := ExtendRun(s, steps, a, who);
  }

  lemma FreshInode(used: set<Inode>) returns (i: Inode)
    ensures i !in used
  {
    var bound: nat := 0;
    var rest := used;
    while rest != {}
      invariant forall j :: j in used && j !in rest ==> j < bound
      decreases rest
    {
      var j :| j in rest;
      rest := rest - {j};
      bound := if j < bound then bound else j + 1;
    }
    i := bound;
  }

  /** The next step of a guard holder on its way out. */
  function WayOut(s: State, q: Pid): Step
    requires q in s.procs && s.procs[q].HoldsGuard()
  {
    match s.procs[q]
    case Guarding => Recheck(q, false)
    case Confirmed => Link(q)
    case Linked => Judge(q, false)
    case Judged(_) => Compare(q)
    case Matched(_) => Unlink(q)
    case Unlinking => RemoveLink(q)
    case _ => DropGuard(q)
  }

  function StepsLeft(pc: Pc): nat {
    match pc
    case Guarding => 7
    case Confirmed => 6
    case Linked => 5
    case Judged(_) => 4
    case Matched(_) => 3
    case Unlinking => 2
    case _ => 1
  }

  lemma WayOutStep(s: State, q: Pid)
    requires LockInv(s) && s.guard == Some(q) && q in s.procs && s.procs[q].HoldsGuard()
    ensures Enabled(s, WayOut(s, q))
    ensures var t := Next(s, WayOut(s, q));
      && q in t.procs && t.procs == s.procs[q := t.procs[q]] && t.creator == s.creator
      && (t.lock == s.lock || t.lock == None)
      && (if s.procs[q] == Dropping then t.guard == None && t.procs[q] == Idle
          else t.guard == s.guard && StepsLeft(t.procs[q]) < StepsLeft(s.procs[q]))
  {
  }

  /** Whoever holds the reclaim guard is alive and can finish on its own, leaving
      the lock path either as it was or empty. */
  lemma {:induction false} GuardHolderFinishes(s: State, q: Pid) returns (steps: seq<Step>)
    requires LockInv(s) && s.guard == Some(q)
    ensures Live(s, q) && Runnable(s, steps) && OwnRun(steps, {q})
    ensures var t := Exec(s, steps);
      && LockInv(t) && t.guard == None && (t.lock == s.lock || t.lock == None)
      && t.creator == s.creator && t.procs == s.procs[q := Idle]
    decreases StepsLeft(s.procs[q])
  {
    assert s.procs[q].HoldsGuard();
    var a := WayOut(s, q);
    var t := Next(s, a);
    WayOutStep(s, q);
    StepKeepsLockInv(s, a);
    OneStep(s, a);
    steps := [a];
    if s.procs[q] != Dropping {
      var rest := GuardHolderFinishes(t, q);
      Overwrite(s.procs, q, t.procs[q], Idle);
      RunsCompose(s, steps, rest);
      steps := steps + rest;
    }
  }

  lemma JoinRuns(s: State, a: seq<Step>, t: State, b: seq<Step>, u: State, who: set<Pid>)
    requires Leads(s, a, t) && Leads(t, b, u) && OwnRun(a, who) && OwnRun(b, who)
    ensures Leads(s, a + b, u) && OwnRun(a + b, who)
  {
    RunsCompose(s, a, b);
  }

  /** With the guard free, an idle process alone removes a crashed owner's lock. */
  lemma ReclaimAlone(s: State, p: Pid) returns (steps: seq<Step>)
    requires LockInv(s) && At(s, p, Idle) && s.guard == None
    requires s.lock.Some? && MayCallStale(s, s.lock.value)
    ensures Runnable(s, steps) && OwnRun(steps, {p})
    ensures Exec(s, steps) == s.(lock := None)
  {
    var t := Set(s, p, Linked).(guard := Some(p), links := s.links[p := s.lock.value]);
    steps := TakeLink(s, p);
    var more := RemoveStaleLock(t, p);
    assert t.links - {p} == s.links;
    assert t.procs[p := Idle] == s.procs;
    JoinRuns(s, steps, t, more, s.(lock := None), {p});
    steps := steps + more;
  }

  lemma RemoveStaleLock(s: State, p: Pid) returns (steps: seq<Step>)
    requires At(s, p, Linked) && p in s.links && s.lock == Some(s.links[p]) && MayCallStale(s, s.links[p])
    ensures Leads(s, steps, Set(s, p, Idle).(lock := None, links := s.links - {p}, guard := None))
    ensures OwnRun(steps, {p})
  {
    var t := Set(s, p, Matched(true));
    steps := ConfirmStale(s, p);
    var more := UnlinkAndLeave(t, p);
    Overwrite(s.procs, p, Matched(true), Idle);
    JoinRuns(s, steps, t, more, Set(s, p, Idle).(lock := None, links := s.links - {p}, guard := None), {p});
    steps := steps + more;
  }

  lemma GetGuard(s: State, p: Pid) returns (steps: seq<Step>)
    requires At(s, p, Idle) && s.guard == None && s.lock.Some? && MayCallStale(s, s.lock.value)
    ensures Leads(s, steps, Set(s, p, Guarding).(guard := Some(p))) && OwnRun(steps, {p})
  {
    var s1 := Set(s, p, Suspecting);
    var s2 := Set(s, p, Guarding).(guard := Some(p));
    Overwrite(s.procs, p, Suspecting, Guarding);
    steps := Walk(s, [], s, Probe(p), s1, {p});
    steps := Walk(s, steps, s1, TakeGuard(p), s2, {p});
  }

  lemma TakeLink(s: State, p: Pid) returns (steps: seq<Step>)
    requires LockInv(s) && At(s, p, Idle) && s.guard == None
    requires s.lock.Some? && MayCallStale(s, s.lock.value)
    ensures Leads(s, steps, Set(s, p, Linked).(guard := Some(p), links := s.links[p := s.lock.value]))
    ensures OwnRun(steps, {p}) && p !in s.links
  {
    var s2 := Set(s, p, Guarding).(guard := Some(p));
    var s3 := Set(s, p, Confirmed).(guard := Some(p));
    var s4 := Set(s, p, Linked).(guard := Some(p), links := s.links[p := s.lock.value]);
    Overwrite(s.procs, p, Guarding, Confirmed);
    Overwrite(s.procs, p, Confirmed, Linked);
    assert MayCallStale(s2, s.lock.value);
    steps := GetGuard(s, p);
    steps := Walk(s, steps, s2, Recheck(p, true), s3, {p});
    steps := Walk(s, steps, s3, Link(p), s4, {p});
  }

  lemma ConfirmStale(s: State, p: Pid) returns (steps: seq<Step>)
    requires At(s, p, Linked) && p in s.links && s.lock == Some(s.links[p]) && MayCallStale(s, s.links[p])
    ensures Leads(s, steps, Set(s, p, Matched(true))) && OwnRun(steps, {p})
  {
    var s1 := Set(s, p, Judged(true));
    var s2 := Set(s, p, Matched(true));
    Overwrite(s.procs, p, Judged(true), Matched(true));
    steps := Walk(s, [], s, Judge(p, true), s1, {p});
    steps := Walk(s, steps, s1, Compare(p), s2, {p});
  }

  lemma UnlinkAndLeave(s: State, p: Pid) returns (steps: seq<Step>)
    requires At(s, p, Matched(true))
    ensures Leads(s, steps, Set(s, p, Idle).(lock := None, links := s.links - {p}, guard := None))
    ensures OwnRun(steps, {p})
  {
    var s1 := Set(s, p, Unlinking).(lock := None);
    var s2 := Set(s, p, Dropping).(lock := None, links := s.links - {p});
    var s3 := Set(s, p, Idle).(lock := None, links := s.links - {p}, guard := None);
    Overwrite(s.procs, p, Unlinking, Dropping);
    Overwrite(s.procs, p, Dropping, Idle);
    steps := Walk(s, [], s, Unlink(p), s1, {p});
    steps := Walk(s, steps, s1, RemoveLink(p), s2, {p});
    steps := Walk(s, steps, s2, DropGuard(p), s3, {p});
  }

  /** However many owners and reclaimers have crashed before, and wherever, an idle
      process can still get past acquisition: at most the one live holder of the
      reclaim guard has to finish first. */
  lemma CrashesNeverBlock(s: State, steps: seq<Step>, p: Pid) returns (more: seq<Step>)
    requires Start(s) && Runnable(s, steps)
    requires var t := Exec(s, steps);
      At(t, p, Idle) && (t.lock.Some? ==> t.lock.value in t.creator && !Live(t, t.creator[t.lock.value]))
    ensures var t := Exec(s, steps);
      && (t.guard.Some? ==> Live(t, t.guard.value))
      && Runnable(t, more)
      && OwnRun(more, {p} + if t.guard.Some? then {t.guard.value} else {})
      && At(Exec(t, more), p, Creating)
  {
    RunKeepsLockInv(s, steps);
    var t := Exec(s, steps);
    var who := {p} + if t.guard.Some? then {t.guard.value} else {};
    more := [];
    if t.guard.Some? {
      more := GuardHolderFinishes(t, t.guard.value);
    }
    var u := Exec(t, more);
    if u.lock.Some? {
      var reclaim := ReclaimAlone(u, p);
      RunsCompose(t, more, reclaim);
      more := more + reclaim;
    }
    var v := Exec(t, more);
    var i := FreshInode(v.links.Values);
    more := ExtendRun(t, more, Create(p, i), who);
  }
}
