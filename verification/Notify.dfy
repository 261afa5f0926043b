/**
The endpoint registry of src/notify.rs under any number of waiters that may crash.
*/
module Notify {
  import opened Common
  import opened Selections

  // Waiters add and remove their entry in a shared file, each in a read-edit-write under a
  // file lock that ends in a rename; wakers read the file without the lock.

  datatype Endpoint = Endpoint(waiter: nat, port: nat)

  datatype Kind = Add | Remove

  /** A file that is being written holds no complete list. */
  datatype Content = Partial | Full(list: seq<Endpoint>)

  /** How far a waiter is. Between Holding and Done it owns the lock. */
  datatype Progress =
    | Fresh
    | Wanting(kind: Kind)
    | Holding(kind: Kind)
    | Edited(kind: Kind, list: seq<Endpoint>)
    | Writing(kind: Kind, list: seq<Endpoint>, ino: nat)
    | Written(kind: Kind, list: seq<Endpoint>, ino: nat)
    | Done(kind: Kind)
    | Registered
    | Gone
    | Crashed
  {
    predicate InSection() { Holding? || Edited? || Writing? || Written? || Done? }
  }

  datatype Waiter = Waiter(port: nat, at: Progress)

  /** Files are inodes; `main` is the one the endpoint path names, `published` those it has
      ever named. */
  datatype State = State(
    waiters: map<nat, Waiter>, lock: Option<nat>, contents: map<nat, Content>, main: Option<nat>, published: set<nat>)

  datatype Step =
    | Begin(w: nat)
    | Lock(w: nat)
    | Edit(w: nat)
    | OpenTemp(w: nat, ino: nat)
    | Fill(w: nat)
    | Rename(w: nat)
    | Unlock(w: nat)
    | Crash(w: nat)

  // ---------- the edits ----------

  /** What retain leaves: the entries of other waiters, in order. */
  function Without(list: seq<Endpoint>, w: nat): seq<Endpoint> {
    if list == [] then []
    else
      var last := list[|list| - 1];
      Without(list[..|list| - 1], w) + if last.waiter == w then [] else [last]
  }

  function Apply(kind: Kind, list: seq<Endpoint>, w: nat, port: nat): seq<Endpoint> {
    match kind
    case Add => Without(list, w) + [Endpoint(w, port)]
    case Remove => Without(list, w)
  }

  /** Removing writes the file back only if an entry went away. */
  predicate NeedsWrite(kind: Kind, before: seq<Endpoint>, after: seq<Endpoint>) {
    kind == Add || |after| != |before|
  }

  /** A file that is absent or that cannot be read counts as empty. */
  function ListIn(s: State): seq<Endpoint> {
    if s.main.Some? && s.main.value in s.contents && s.contents[s.main.value].Full?
    then s.contents[s.main.value].list else []
  }

  // ---------- steps ----------

  function At(s: State, w: nat): Progress
    requires w in s.waiters
  {
    s.waiters[w].at
  }

  function Move(s: State, w: nat, to: Progress): State
    requires w in s.waiters
  {
    s.(waiters := s.waiters[w := s.waiters[w].(at := to)])
  }

  predicate Enabled(s: State, step: Step) {
    && step.w in s.waiters
    && var at := At(s, step.w);
       match step
       case Begin(w) => at.Fresh? || at.Registered?
       case Lock(w) => at.Wanting? && s.lock.None?
       case Edit(w) => at.Holding?
       case OpenTemp(w, ino) => at.Edited? && ino !in s.published
       case Fill(w) => at.Writing?
       case Rename(w) => at.Written?
       case Unlock(w) => at.Done?
       case Crash(w) => !at.Gone? && !at.Crashed?
  }

  /** Opening the temporary file creates or empties it; a crash gives the lock back. */
  function Next(s: State, step: Step): State
    requires Enabled(s, step)
  {
    var at := At(s, step.w);
    match step
    case Begin(w) => Move(s, w, Wanting(if at.Fresh? then Add else Remove))
    case Lock(w) => Move(s, w, Holding(at.kind)).(lock := Some(w))
    case Edit(w) =>
      var edited := Apply(at.kind, ListIn(s), w, s.waiters[w].port);
      Move(s, w, if NeedsWrite(at.kind, ListIn(s), edited) then Edited(at.kind, edited) else Done(at.kind))
    case OpenTemp(w, ino) => Move(s, w, Writing(at.kind, at.list, ino)).(contents := s.contents[ino := Partial])
    case Fill(w) => Move(s, w, Written(at.kind, at.list, at.ino)).(contents := s.contents[at.ino := Full(at.list)])
    case Rename(w) => Move(s, w, Done(at.kind)).(main := Some(at.ino), published := s.published + {at.ino})
    case Unlock(w) => Move(s, w, if at.kind == Add then Registered else Gone).(lock := None)
    case Crash(w) => Move(s, w, Crashed).(lock := if s.lock == Some(w) then None else s.lock)
  }

  predicate Runnable(s: State, steps: seq<Step>)
    decreases |steps|
  {
    steps == [] || (Enabled(s, steps[0]) && Runnable(Next(s, steps[0]), steps[1..]))
  }

  function Run(s: State, steps: seq<Step>): State
    requires Runnable(s, steps)
    decreases |steps|
  {
    if steps == [] then s else Run(Next(s, steps[0]), steps[1..])
  }

  ghost predicate Start(s: State) {
    && s.lock.None? && s.main.None? && s.contents == map[] && s.published == {}
    && forall w :: w in s.waiters ==> At(s, w).Fresh?
  }

  // ---------- the invariant ----------

  /** The waiter's entry is in the file: added and not yet removed. */
  predicate Listed(at: Progress) {
    match at
    case Registered => true
    case Fresh => false
    case Gone => false
    case Crashed => false
    case Done(kind) => kind == Add
    case _ => at.kind == Remove
  }

  ghost predicate LockIsHeldInside(s: State) {
    && (forall w :: w in s.waiters && At(s, w).InSection() ==> s.lock == Some(w))
    && (s.lock.Some? ==> s.lock.value in s.waiters && At(s, s.lock.value).InSection())
  }

  /** The file the path names is complete, and no file it ever named is being written. */
  ghost predicate FilesAreComplete(s: State) {
    && (s.main.Some? ==> s.main.value in s.published)
    && (forall ino :: ino in s.published ==> ino in s.contents && s.contents[ino].Full?)
    && (forall w :: w in s.waiters && At(s, w).Writing? ==>
          At(s, w).ino !in s.published && At(s, w).ino in s.contents && s.contents[At(s, w).ino] == Partial)
    && (forall w :: w in s.waiters && At(s, w).Written? ==>
          At(s, w).ino !in s.published && At(s, w).ino in s.contents && s.contents[At(s, w).ino] == Full(At(s, w).list))
  }

  /** A waiter that has read the file holds the edit of what the file still says. */
  ghost predicate EditsAreCurrent(s: State) {
    forall w :: w in s.waiters && (At(s, w).Edited? || At(s, w).Writing? || At(s, w).Written?) ==>
      At(s, w).list == Apply(At(s, w).kind, ListIn(s), w, s.waiters[w].port)
  }

  /** One entry for each waiter that is listed; any other entry is of a crashed waiter. */
  ghost predicate ListIsRight(waiters: map<nat, Waiter>, list: seq<Endpoint>) {
    && (forall i, j :: 0 <= i < j < |list| ==> list[i].waiter != list[j].waiter)
    && (forall w :: w in waiters && Listed(waiters[w].at) ==> Endpoint(w, waiters[w].port) in list)
    && (forall e :: e in list ==>
          && e.waiter in waiters && e.port == waiters[e.waiter].port
          && (Listed(waiters[e.waiter].at) || waiters[e.waiter].at.Crashed?))
  }

  ghost predicate Inv(s: State) {
    LockIsHeldInside(s) && FilesAreComplete(s) && EditsAreCurrent(s) && ListIsRight(s.waiters, ListIn(s))
  }

  // ---------- edits and the list ----------

  lemma {:induction false} WithoutMeans(list: seq<Endpoint>, w: nat)
    ensures forall e :: e in Without(list, w) <==> e in list && e.waiter != w
    ensures |Without(list, w)| <= |list|
    ensures |Without(list, w)| == |list| <==> forall e :: e in list ==> e.waiter != w
  {
    if list != [] {
      WithoutMeans(list[..|list| - 1], w);
      assert list == list[..|list| - 1] + [list[|list| - 1]];
    }
  }

  /** `kept` are the entries of all waiters but `w`, in their order. */
  ghost predicate OthersKept(list: seq<Endpoint>, kept: seq<Endpoint>, w: nat) {
    exists at :: IsAt(kept, list, at) && forall i: nat :: i in at <==> i < |list| && list[i].waiter != w
  }

  lemma {:induction false} WithoutAt(list: seq<Endpoint>, w: nat) returns (at: seq<nat>)
    ensures IsAt(Without(list, w), list, at) && AreWhere(at, list, (e: Endpoint) => e.waiter != w)
  {
    at := [];
    if list != [] {
      var front, last := list[..|list| - 1], list[|list| - 1];
      at := WithoutAt(front, w);
      OneMoreAt(Without(front, w), front, at, (e: Endpoint) => e.waiter != w, last);
      assert front + [last] == list;
      if last.waiter != w {
        at := at + [|front|];
      }
    }
  }

  lemma WithoutKeepsOthers(list: seq<Endpoint>, w: nat)
    ensures OthersKept(list, Without(list, w), w)
  {
    var at := WithoutAt(list, w);
  }

  /** An edit keeps the entries of the other waiters in order, and adds its own at the end or
      drops it. Only a removal that finds nothing to remove leaves the file alone. */
  lemma EditMeans(kind: Kind, list: seq<Endpoint>, w: nat, port: nat) returns (kept: seq<Endpoint>)
    ensures OthersKept(list, kept, w)
    ensures Apply(kind, list, w, port) == if kind == Add then kept + [Endpoint(w, port)] else kept
    ensures NeedsWrite(kind, list, Apply(kind, list, w, port)) <==>
      kind == Add || exists i :: 0 <= i < |list| && list[i].waiter == w
  {
    kept := Without(list, w);
    WithoutKeepsOthers(list, w);
    WithoutMeans(list, w);
  }

  ghost predicate DistinctWaiters(list: seq<Endpoint>) {
    forall i, j :: 0 <= i < j < |list| ==> list[i].waiter != list[j].waiter
  }

  lemma {:induction false} WithoutStaysDistinct(list: seq<Endpoint>, w: nat)
    requires DistinctWaiters(list)
    ensures DistinctWaiters(Without(list, w))
  {
    if list != [] {
      var shorter := list[..|list| - 1];
      WithoutStaysDistinct(shorter, w);
      WithoutMeans(shorter, w);
      var kept := Without(shorter, w);
      forall i | 0 <= i < |kept|
        ensures kept[i].waiter != list[|list| - 1].waiter
      {
        assert kept[i] in shorter;
      }
    }
  }

  /** Renaming an edited list into place makes the list right for the waiter's new state. */
  lemma EditKeepsListRight(waiters: map<nat, Waiter>, list: seq<Endpoint>, w: nat, kind: Kind)
    requires ListIsRight(waiters, list) && w in waiters && !waiters[w].at.Crashed?
    ensures ListIsRight(waiters[w := waiters[w].(at := Done(kind))], Apply(kind, list, w, waiters[w].port))
  {
    WithoutMeans(list, w);
    WithoutStaysDistinct(list, w);
    var kept := Without(list, w);
    forall i | 0 <= i < |kept|
      ensures kept[i].waiter != w
    {
      assert kept[i] in kept;
    }
  }

  /** A waiter that moves on without changing whether it is listed leaves the list right. */
  lemma MoveKeepsListRight(waiters: map<nat, Waiter>, list: seq<Endpoint>, w: nat, to: Progress)
    requires ListIsRight(waiters, list) && w in waiters && !waiters[w].at.Crashed?
    requires Listed(to) == Listed(waiters[w].at) || to.Crashed?
    ensures ListIsRight(waiters[w := waiters[w].(at := to)], list)
  {
  }

  // ---------- every step keeps the invariant ----------

  /** A waiter that deregisters always finds its entry, so every edit is written back. */
  lemma EditIsWritten(s: State, w: nat)
    requires Inv(s) && Enabled(s, Edit(w))
    ensures NeedsWrite(At(s, w).kind, ListIn(s), Apply(At(s, w).kind, ListIn(s), w, s.waiters[w].port))
  {
    WithoutMeans(ListIn(s), w);
    assert At(s, w).kind == Remove ==> Endpoint(w, s.waiters[w].port) in ListIn(s);
  }

  lemma EditStepKeepsInv(s: State, w: nat)
    requires Inv(s) && Enabled(s, Edit(w))
    ensures Inv(Next(s, Edit(w)))
  {
    var at := At(s, w);
    EditIsWritten(s, w);
    MoveKeepsListRight(s.waiters, ListIn(s), w, Edited(at.kind, Apply(at.kind, ListIn(s), w, s.waiters[w].port)));
  }

  lemma OpenStepKeepsInv(s: State, w: nat, ino: nat)
    requires Inv(s) && Enabled(s, OpenTemp(w, ino))
    ensures Inv(Next(s, OpenTemp(w, ino)))
  {
    var at := At(s, w);
    MoveKeepsListRight(s.waiters, ListIn(s), w, Writing(at.kind, at.list, ino));
  }

  lemma FillStepKeepsInv(s: State, w: nat)
    requires Inv(s) && Enabled(s, Fill(w))
    ensures Inv(Next(s, Fill(w)))
  {
    var at := At(s, w);
    MoveKeepsListRight(s.waiters, ListIn(s), w, Written(at.kind, at.list, at.ino));
  }

  lemma RenameStepKeepsInv(s: State, w: nat)
    requires Inv(s) && Enabled(s, Rename(w))
    ensures Inv(Next(s, Rename(w)))
  {
    EditKeepsListRight(s.waiters, ListIn(s), w, At(s, w).kind);
  }

  lemma BeginStepKeepsInv(s: State, w: nat)
    requires Inv(s) && Enabled(s, Begin(w))
    ensures Inv(Next(s, Begin(w)))
  {
    MoveKeepsListRight(s.waiters, ListIn(s), w, Wanting(if At(s, w).Fresh? then Add else Remove));
  }

  lemma LockStepKeepsInv(s: State, w: nat)
    requires Inv(s) && Enabled(s, Lock(w))
    ensures Inv(Next(s, Lock(w)))
  {
    MoveKeepsListRight(s.waiters, ListIn(s), w, Holding(At(s, w).kind));
  }

  lemma UnlockStepKeepsInv(s: State, w: nat)
    requires Inv(s) && Enabled(s, Unlock(w))
    ensures Inv(Next(s, Unlock(w)))
  {
    MoveKeepsListRight(s.waiters, ListIn(s), w, if At(s, w).kind == Add then Registered else Gone);
  }

  lemma CrashStepKeepsInv(s: State, w: nat)
    requires Inv(s) && Enabled(s, Crash(w))
    ensures Inv(Next(s, Crash(w)))
  {
    MoveKeepsListRight(s.waiters, ListIn(s), w, Crashed);
  }

  lemma StepKeepsInv(s: State, step: Step)
    requires Inv(s) && Enabled(s, step)
    ensures Inv(Next(s, step))
  {
    match step {
      case Begin(w) => BeginStepKeepsInv(s, w);
      case Lock(w) => LockStepKeepsInv(s, w);
      case Edit(w) => EditStepKeepsInv(s, w);
      case OpenTemp(w, ino) => OpenStepKeepsInv(s, w, ino);
      case Fill(w) => FillStepKeepsInv(s, w);
      case Rename(w) => RenameStepKeepsInv(s, w);
      case Unlock(w) => UnlockStepKeepsInv(s, w);
      case Crash(w) => CrashStepKeepsInv(s, w);
    }
  }

  lemma {:induction false} RunKeepsInv(s: State, steps: seq<Step>)
    requires Inv(s) && Runnable(s, steps)
    ensures Inv(Run(s, steps))
    decreases |steps|
  {
    if steps != [] {
      StepKeepsInv(s, steps[0]);
      RunKeepsInv(Next(s, steps[0]), steps[1..]);
    }
  }

  // ---------- the guarantees ----------

  /** No edit is lost: a rename applies its waiter's edit to the list as it then is. */
  lemma RenameAppliesTheEdit(start: State, steps: seq<Step>, w: nat)
    requires Start(start) && Runnable(start, steps) && Enabled(Run(start, steps), Rename(w))
    ensures var s := Run(start, steps);
      ListIn(Next(s, Rename(w))) == Apply(At(s, w).kind, ListIn(s), w, s.waiters[w].port)
  {
    RunKeepsInv(start, steps);
  }

  /** Registered, or about to ask for the lock to deregister. */
  predicate IsRegistered(at: Progress) {
    at.Registered? || at == Wanting(Remove)
  }

  ghost predicate HoldsExactly(list: seq<Endpoint>, waiters: map<nat, Waiter>) {
    && DistinctWaiters(list)
    && forall e :: e in list <==>
         e.waiter in waiters && e.port == waiters[e.waiter].port && IsRegistered(waiters[e.waiter].at)
  }

  /** Whenever no waiter is in its critical section, the file holds exactly one entry for
      each live registered waiter, and any other entry is of a waiter that crashed. */
  lemma FileBetweenSections(start: State, steps: seq<Step>)
    requires Start(start) && Runnable(start, steps) && Run(start, steps).lock.None?
    ensures var s := Run(start, steps);
      && DistinctWaiters(ListIn(s))
      && (forall w :: w in s.waiters && !At(s, w).Crashed? ==>
            (Endpoint(w, s.waiters[w].port) in ListIn(s) <==> IsRegistered(At(s, w))))
      && (forall e :: e in ListIn(s) ==>
            e.waiter in s.waiters && (IsRegistered(At(s, e.waiter)) || At(s, e.waiter).Crashed?))
  {
    RunKeepsInv(start, steps);
  }

  ghost predicate NoCrash(steps: seq<Step>) {
    forall i :: 0 <= i < |steps| ==> !steps[i].Crash?
  }

  lemma {:induction false} NobodyCrashed(s: State, steps: seq<Step>)
    requires Runnable(s, steps) && NoCrash(steps) && forall w :: w in s.waiters ==> !At(s, w).Crashed?
    ensures forall w :: w in Run(s, steps).waiters ==> !At(Run(s, steps), w).Crashed?
    decreases |steps|
  {
    if steps != [] {
      assert !steps[0].Crash?;
      assert forall i :: 0 <= i < |steps| - 1 ==> steps[1..][i] == steps[i + 1];
      NobodyCrashed(Next(s, steps[0]), steps[1..]);
    }
  }

  /** Without crashes the file between critical sections holds the entries of the
      registered waiters and no others. */
  lemma FileWithoutCrashes(start: State, steps: seq<Step>)
    requires Start(start) && Runnable(start, steps) && NoCrash(steps) && Run(start, steps).lock.None?
    ensures HoldsExactly(ListIn(Run(start, steps)), Run(start, steps).waiters)
  {
    NobodyCrashed(start, steps);
    FileBetweenSections(start, steps);
    RunKeepsInv(start, steps);
  }

  /** At most one live waiter is in its critical section, and a crash inside it leaves the
      lock free. */
  lemma SectionsExclude(start: State, steps: seq<Step>, v: nat, w: nat)
    requires Start(start) && Runnable(start, steps)
    requires var s := Run(start, steps); v in s.waiters && w in s.waiters && At(s, v).InSection()
    ensures At(Run(start, steps), w).InSection() ==> v == w
    ensures Enabled(Run(start, steps), Crash(v)) && Next(Run(start, steps), Crash(v)).lock.None?
  {
    RunKeepsInv(start, steps);
  }

  lemma PublishedStays(s: State, step: Step, ino: nat)
    requires Inv(s) && Enabled(s, step) && ino in s.published
    ensures var t := Next(s, step);
      ino in t.published && ino in t.contents && t.contents[ino] == s.contents[ino]
  {
  }

  lemma {:induction false} PublishedIsFrozen(s: State, steps: seq<Step>, ino: nat)
    requires Inv(s) && Runnable(s, steps) && ino in s.published
    ensures ino in Run(s, steps).contents && Run(s, steps).contents[ino] == s.contents[ino]
    decreases |steps|
  {
    if steps != [] {
      PublishedStays(s, steps[0], ino);
      StepKeepsInv(s, steps[0]);
      PublishedIsFrozen(Next(s, steps[0]), steps[1..], ino);
    }
  }

  /** A waker takes no lock: it opens the file the path names at one moment and reads it at
      a later one. Whatever happens in between, it reads the complete list the path named
      when it was opened. */
  lemma WakerReadsOneInstant(start: State, before: seq<Step>, between: seq<Step>)
    requires Start(start) && Runnable(start, before) && Runnable(Run(start, before), between)
    requires Run(start, before).main.Some?
    ensures var seen := Run(start, before);
      var ino := seen.main.value;
      && ino in Run(seen, between).contents
      && Run(seen, between).contents[ino] == Full(ListIn(seen))
  {
    RunKeepsInv(start, before);
    PublishedIsFrozen(Run(start, before), between, Run(start, before).main.value);
  }

  // ---------- no waiter is kept from its turn ----------

  /** Steps of one waiter, which does not crash. */
  ghost predicate OwnSteps(steps: seq<Step>, w: nat) {
    forall i :: 0 <= i < |steps| ==> steps[i].w == w && !steps[i].Crash?
  }

  lemma OneStep(s: State, step: Step, rest: seq<Step>)
    requires Enabled(s, step) && Runnable(Next(s, step), rest)
    ensures Runnable(s, [step] + rest) && Run(s, [step] + rest) == Run(Next(s, step), rest)
  {
    assert ([step] + rest)[1..] == rest;
  }

  lemma {:induction false} StepsInARow(s: State, a: seq<Step>, b: seq<Step>)
    requires Runnable(s, a) && Runnable(Run(s, a), b)
    ensures Runnable(s, a + b) && Run(s, a + b) == Run(Run(s, a), b)
    decreases |a|
  {
    if a == [] {
      assert a + b == b;
    } else {
      assert (a + b)[1..] == a[1..] + b;
      StepsInARow(Next(s, a[0]), a[1..], b);
    }
  }

  /** The waiter takes the lock. */
  lemma LockIsTaken(s: State, w: nat) returns (steps: seq<Step>, t: State)
    requires Inv(s) && s.lock.None? && w in s.waiters && (At(s, w) == Fresh || At(s, w) == Registered)
    ensures OwnSteps(steps, w) && Runnable(s, steps) && t == Run(s, steps) && Inv(t)
    ensures var kind := if At(s, w) == Fresh then Add else Remove;
      && t.waiters == s.waiters[w := Waiter(s.waiters[w].port, Holding(kind))]
      && t.published == s.published && ListIn(t) == ListIn(s)
  {
    var a := Next(s, Begin(w));
    BeginStepKeepsInv(s, w);
    t := Next(a, Lock(w));
    StepKeepsInv(a, Lock(w));
    OneStep(a, Lock(w), []);
    OneStep(s, Begin(w), [Lock(w)]);
    steps := [Begin(w)] + [Lock(w)];
  }

  /** It reads the file and edits the list. */
  lemma EditIsMade(s: State, w: nat) returns (steps: seq<Step>, t: State)
    requires Inv(s) && w in s.waiters && At(s, w).Holding?
    ensures OwnSteps(steps, w) && Runnable(s, steps) && t == Run(s, steps)
    ensures var list := Apply(At(s, w).kind, ListIn(s), w, s.waiters[w].port);
      && t.waiters == s.waiters[w := Waiter(s.waiters[w].port, Edited(At(s, w).kind, list))]
      && t.published == s.published
  {
    EditIsWritten(s, w);
    t := Next(s, Edit(w));
    OneStep(s, Edit(w), []);
    steps := [Edit(w)] + [];
  }

  /** The edited list is written, renamed into place, and the lock given back. */
  lemma EditIsPublished(s: State, w: nat, ino: nat) returns (steps: seq<Step>, t: State)
    requires w in s.waiters && At(s, w).Edited? && ino !in s.published
    ensures OwnSteps(steps, w) && Runnable(s, steps) && t == Run(s, steps)
    ensures t.lock.None? && ListIn(t) == At(s, w).list
    ensures t.waiters == s.waiters[w := Waiter(s.waiters[w].port, if At(s, w).kind == Add then Registered else Gone)]
  {
    var a := Next(s, OpenTemp(w, ino));
    var b := Next(a, Fill(w));
    var c := Next(b, Rename(w));
    t := Next(c, Unlock(w));
    OneStep(c, Unlock(w), []);
    OneStep(b, Rename(w), [Unlock(w)]);
    OneStep(a, Fill(w), [Rename(w), Unlock(w)]);
    OneStep(s, OpenTemp(w, ino), [Fill(w), Rename(w), Unlock(w)]);
    steps := [OpenTemp(w, ino)] + [Fill(w), Rename(w), Unlock(w)];
  }

  lemma LastMoveCounts(waiters: map<nat, Waiter>, w: nat, before: Waiter, after: Waiter)
    ensures waiters[w := before][w := after] == waiters[w := after]
  {
  }

  lemma OwnStepsInARow(a: seq<Step>, b: seq<Step>, w: nat)
    requires OwnSteps(a, w) && OwnSteps(b, w)
    ensures OwnSteps(a + b, w)
  {
  }

  /** Whoever holds the lock can edit the list, publish it and give the lock back. */
  lemma HolderFinishes(s: State, w: nat, ino: nat) returns (steps: seq<Step>, t: State)
    requires Inv(s) && w in s.waiters && At(s, w).Holding? && ino !in s.published
    ensures OwnSteps(steps, w) && Runnable(s, steps) && t == Run(s, steps)
    ensures t.lock.None? && ListIn(t) == Apply(At(s, w).kind, ListIn(s), w, s.waiters[w].port)
    ensures t.waiters == s.waiters[w := Waiter(s.waiters[w].port, if At(s, w).kind == Add then Registered else Gone)]
  {
    var first, edited := EditIsMade(s, w);
    var second, published := EditIsPublished(edited, w, ino);
    StepsInARow(s, first, second);
    OwnStepsInARow(first, second, w);
    LastMoveCounts(s.waiters, w, edited.waiters[w], published.waiters[w]);
    steps, t := first + second, published;
  }

  /** Whenever the lock is free, a fresh waiter can register and a registered one deregister by
      steps of its own. Then its edit is in the file, and no other waiter has moved. */
  lemma WaiterTakesItsTurn(s: State, w: nat, ino: nat) returns (steps: seq<Step>, t: State)
    requires Inv(s) && s.lock.None? && ino !in s.published
    requires w in s.waiters && (At(s, w) == Fresh || At(s, w) == Registered)
    ensures OwnSteps(steps, w) && Runnable(s, steps) && t == Run(s, steps)
    ensures var kind := if At(s, w) == Fresh then Add else Remove;
      && t.lock.None? && ListIn(t) == Apply(kind, ListIn(s), w, s.waiters[w].port)
      && t.waiters == s.waiters[w := Waiter(s.waiters[w].port, if kind == Add then Registered else Gone)]
  {
    var first, locked := LockIsTaken(s, w);
    var second, published := HolderFinishes(locked, w, ino);
    StepsInARow(s, first, second);
    OwnStepsInARow(first, second, w);
    LastMoveCounts(s.waiters, w, locked.waiters[w], published.waiters[w]);
    steps, t := first + second, published;
  }

  // ---------- the code of one waiter ----------

  /** The list one waiter edits while it holds the lock. */
  class EndpointList {
    var endpoints: seq<Endpoint>

    constructor (read: seq<Endpoint>)
      ensures endpoints == read
    {
      endpoints := read;
    }

    method Retain(w: nat)
      modifies this
      ensures endpoints == Without(old(endpoints), w)
    {
      var kept := [];
      for i := 0 to |endpoints|
        invariant endpoints == old(endpoints)
        invariant kept == Without(endpoints[..i], w)
      {
        assert endpoints[..i + 1][..i] == endpoints[..i];
        if endpoints[i].waiter != w {
          kept := kept + [endpoints[i]];
        }
      }
      assert endpoints[..|endpoints|] == endpoints;
      endpoints := kept;
    }

    method AddEndpoint(w: nat, port: nat) returns (write: bool)
      modifies this
      ensures endpoints == Apply(Add, old(endpoints), w, port)
      ensures endpoints != [] && endpoints[|endpoints| - 1] == Endpoint(w, port)
      ensures OthersKept(old(endpoints), endpoints[..|endpoints| - 1], w)
      ensures write
    {
      Retain(w);
      WithoutKeepsOthers(old(endpoints), w);
      endpoints := endpoints + [Endpoint(w, port)];
      assert endpoints[..|endpoints| - 1] == Without(old(endpoints), w);
      return true;
    }

    method RemoveEndpoint(w: nat, ghost port: nat) returns (write: bool)
      modifies this
      ensures endpoints == Apply(Remove, old(endpoints), w, port)
      ensures OthersKept(old(endpoints), endpoints, w)
      ensures write == exists i :: 0 <= i < |old(endpoints)| && old(endpoints)[i].waiter == w
    {
      var before := |endpoints|;
      WithoutMeans(endpoints, w);
      WithoutKeepsOthers(endpoints, w);
      Retain(w);
      return |endpoints| != before;
    }
  }
}
