/**
What the operations on dispatch windows do to the fields of the records.
*/
module DispatchMeaning {
  import opened Common
  import opened Text
  import opened DispatchWindows

  /** A dispatch leaves one record of its pair that is not cleaned. It holds what was
      dispatched, opt-in included, and is active. It is the record the pair already had, with
      its time of creation, or a new one at the end. All others stay. */
  lemma DispatchMeans(ws: seq<Window>, d: Dispatch, now: string) returns (k: nat)
    requires Good(ws)
    ensures After(ws, DispatchTo(d, now)) == AfterDispatch(ws, d, now)
    ensures var next := AfterDispatch(ws, d, now);
      && k < |next|
      && next[k] == Window(d.windowId, d.target, d.runner, Some(d.backend), d.tmuxBin, d.closeWindow, Active,
                           next[k].createdAt, None, None)
      && (forall i :: 0 <= i < |next| && i != k ==>
           i < |ws| && next[i] == ws[i]
           && !(ws[i].windowId == d.windowId && ws[i].runner == d.runner && ws[i].status != Cleaned))
    ensures var next := AfterDispatch(ws, d, now);
      if exists i :: 0 <= i < |ws| && ws[i].windowId == d.windowId && ws[i].runner == d.runner
                     && ws[i].status != Cleaned
      then |next| == |ws| && next[k].createdAt == ws[k].createdAt
      else |next| == |ws| + 1 && k == |ws| && next[k].createdAt == now
  {
    var found := LastWhere(ws, OpenWith(d.windowId, d.runner));
    k := if found.Some? then found.value else |ws|;
    forall i | 0 <= i < |ws| && ws[i].windowId == d.windowId && ws[i].runner == d.runner && ws[i].status != Cleaned
      ensures OpenWith(d.windowId, d.runner)(ws[i])
    {
    }
  }

  /** Retaining a window by its id marks the last active record with that id, and keeps all
      its other fields. Without one, nothing changes. */
  lemma RetainMeans(ws: seq<Window>, id: string, reason: string, now: string) returns (k: nat)
    ensures After(ws, RetainWindow(id, reason, now)) == AfterRetain(ws, id, reason, now)
    ensures var next := AfterRetain(ws, id, reason, now);
      if exists i :: 0 <= i < |ws| && ws[i].windowId == id && ws[i].status == Active then
        && k < |ws| == |next| && ws[k].windowId == id && ws[k].status == Active
        && (forall i :: k < i < |ws| ==> !(ws[i].windowId == id && ws[i].status == Active))
        && (forall i :: 0 <= i < |ws| && i != k ==> next[i] == ws[i])
        && next[k] == Window(id, ws[k].target, ws[k].runner, ws[k].backend, ws[k].tmuxBin, ws[k].cleanupOnSuccess,
                             Retained, ws[k].createdAt, Some(now), Some(Told(reason)))
      else next == ws
  {
    var found := LastWhere(ws, ActiveId(id));
    k := if found.Some? then found.value else 0;
    forall i | 0 <= i < |ws| && ws[i].windowId == id && ws[i].status == Active
      ensures ActiveId(id)(ws[i])
    {
    }
  }

  /** Retaining the newest window does the same to the last active record of all. */
  lemma RetainNewestMeans(ws: seq<Window>, reason: string, now: string) returns (k: nat)
    ensures After(ws, RetainNewest(reason, now)) == AfterRetainLatest(ws, reason, now)
    ensures var next := AfterRetainLatest(ws, reason, now);
      if exists i :: 0 <= i < |ws| && ws[i].status == Active then
        && k < |ws| == |next| && ws[k].status == Active
        && (forall i :: k < i < |ws| ==> ws[i].status != Active)
        && (forall i :: 0 <= i < |ws| && i != k ==> next[i] == ws[i])
        && next[k] == Window(ws[k].windowId, ws[k].target, ws[k].runner, ws[k].backend, ws[k].tmuxBin,
                             ws[k].cleanupOnSuccess, Retained, ws[k].createdAt, Some(now), Some(Told(reason)))
      else next == ws
  {
    var found := LastWhere(ws, AnyActive());
    k := 0;
    if found.Some? {
      assert AnyActive()(ws[found.value]);
      k := RetainMeans(ws, ws[found.value].windowId, reason, now);
    }
    forall i | 0 <= i < |ws| && ws[i].status == Active
      ensures AnyActive()(ws[i])
    {
    }
  }

  lemma WindowIdMeans(id: string)
    ensures IsWindowId(id) <==> |id| >= 2 && id[0] == '@' && forall i :: 1 <= i < |id| ==> '0' <= id[i] <= '9'
  {
    if IsWindowId(id) {
      forall i | 1 <= i < |id|
        ensures '0' <= id[i] <= '9'
      {
        assert IsDigit(id[1..][i - 1]);
      }
    }
  }

  /** Whether and why an active record is not cleaned by a report of a completed dispatch. */
  ghost predicate KeptFor(w: Window, rc: Option<int>, env: Environment, why: Reason) {
    var badId := !(|w.windowId| >= 2 && w.windowId[0] == '@'
                   && forall i :: 1 <= i < |w.windowId| ==> '0' <= w.windowId[i] <= '9');
    || (w.backend == None && why == InvalidBackend)
    || (w.backend == Some(Tmux) && badId && why == InvalidWindowId)
    || (w.backend != None && !(w.backend == Some(Tmux) && badId)
        && (|| (rc != Some(0) && why == CompletionRc(rc))
            || (rc == Some(0) && !w.cleanupOnSuccess && why == KeepWindowRequested)
            || (rc == Some(0) && w.cleanupOnSuccess
                && (|| (w.backend == Some(Tmux) && env.tmux == NoStart && why == NotStarted)
                    || (w.backend == Some(Tmux) && env.tmux == Failed && why == SchedulingFailed)
                    || (w.backend != Some(Tmux) && env.gui == CloseError && why == CleanupFailed)))))
  }

  /** The report of a completed turn settles the active record of its pair if the run was
      named and the source is a self-report, the end of the process, or a Stop hook with a
      proven goal, which counts as return code 0. The record is retained for the reason
      above, or cleaned where there is none. Its other fields and all other records stay. */
  lemma ReportMeans(ws: seq<Window>, turn: Turn, runner: string, id: Option<string>, env: Environment, now: string)
      returns (k: nat)
    requires Good(ws)
    ensures var next := After(ws, Report(turn, runner, id, env, now));
      var rc := if turn.source == StopHook(true) then Some(0) else turn.rc;
      if && turn.runNamed && id.Some?
         && (turn.source == SelfReport || turn.source == ProcessExit || turn.source == StopHook(true))
         && exists i :: 0 <= i < |ws| && ws[i].windowId == id.value && ws[i].runner == runner && ws[i].status == Active
      then
        && k < |ws| == |next| && ws[k].windowId == id.value && ws[k].runner == runner && ws[k].status == Active
        && (forall i :: 0 <= i < |ws| && i != k ==> next[i] == ws[i])
        && (exists status, why :: next[k] == Window(id.value, ws[k].target, runner, ws[k].backend, ws[k].tmuxBin,
              ws[k].cleanupOnSuccess, status, ws[k].createdAt, Some(now), why))
        && (if exists why :: KeptFor(ws[k], rc, env, why)
            then next[k].status == Retained && next[k].retentionReason.Some?
                 && KeptFor(ws[k], rc, env, next[k].retentionReason.value)
            else next[k].status == Cleaned && next[k].retentionReason == None)
      else next == ws
  {
    k := 0;
    if id.Some? {
      var found := LastWhere(ws, ActiveWith(id.value, runner));
      forall i | 0 <= i < |ws| && ws[i].windowId == id.value && ws[i].runner == runner && ws[i].status == Active
        ensures ActiveWith(id.value, runner)(ws[i])
      {
      }
      if turn.CompletesDispatch() && found.Some? {
        assert ActiveWith(id.value, runner)(ws[found.value]);
        k := ReportSettles(ws, runner, id.value, turn.EffectiveRc(), env, now);
        SettledMeans(ws[k], turn.EffectiveRc(), env, now);
      }
    }
  }

  lemma SettledMeans(w: Window, rc: Option<int>, env: Environment, now: string)
    requires w.status == Active
    ensures var after := Settled(w, rc, env, now);
      && after == w.(status := after.status, finishedAt := Some(now), retentionReason := after.retentionReason)
      && (if exists why :: KeptFor(w, rc, env, why)
          then after.status == Retained && after.retentionReason.Some?
               && KeptFor(w, rc, env, after.retentionReason.value)
          else after.status == Cleaned && after.retentionReason == None)
  {
    WindowIdMeans(w.windowId);
    var after := Settled(w, rc, env, now);
    if after.retentionReason.Some? {
      assert KeptFor(w, rc, env, after.retentionReason.value);
    }
  }

  /** The close of an active record raises an error for every reason but a return code and a
      window that is to be kept. It leaves the record as it was where the backend or the id
      is invalid or tmux does not start; everywhere else the record is settled. */
  lemma FinishedMeans(w: Window, rc: Option<int>, env: Environment, now: string)
    requires w.status == Active
    ensures var (after, error) := Finished(w, rc, env, now);
      && (forall why :: error == Some(why) <==>
            KeptFor(w, rc, env, why) && !why.CompletionRc? && why != KeepWindowRequested)
      && (if error == Some(InvalidBackend) || error == Some(InvalidWindowId) || error == Some(NotStarted)
          then after == w else after == Settled(w, rc, env, now))
  {
    WindowIdMeans(w.windowId);
  }

  // ---------- runs ----------

  /** A run does its operations one after the other. */
  lemma RunMeans(ws: seq<Window>, ops: seq<Operation>, op: Operation)
    ensures AfterAll(ws, []) == ws && AfterAll(ws, ops + [op]) == After(AfterAll(ws, ops), op)
  {
    assert (ops + [op])[..|ops|] == ops;
  }

  predicate Dispatches(op: Operation, id: string, runner: string) {
    op.DispatchTo? && op.d.windowId == id && op.d.runner == runner
  }

  /** Only a dispatch of its pair adds a record, or changes what was dispatched. */
  lemma RecordKeepsItsDispatch(ws: seq<Window>, op: Operation, i: nat)
    requires Good(ws) && i < |After(ws, op)| && After(ws, op)[i].status != Cleaned
    requires !Dispatches(op, After(ws, op)[i].windowId, After(ws, op)[i].runner)
    ensures i < |ws| && ws[i].status != Cleaned
    ensures var w, v := ws[i], After(ws, op)[i];
      v == w.(status := v.status, finishedAt := v.finishedAt, retentionReason := v.retentionReason)
  {
    match op {
      case DispatchTo(d, now) =>
        var k := DispatchMeans(ws, d, now);
      case RetainWindow(id, reason, now) =>
        var k := RetainMeans(ws, id, reason, now);
      case RetainNewest(reason, now) =>
        var k := RetainNewestMeans(ws, reason, now);
      case Report(turn, runner, id, env, now) =>
        var k := ReportMeans(ws, turn, runner, id, env, now);
    }
  }

  /** The last dispatch of the pair among the operations is the one at `m`. */
  predicate LastDispatchAt(ops: seq<Operation>, m: nat, id: string, runner: string) {
    && m < |ops| && Dispatches(ops[m], id, runner)
    && forall j :: m < j < |ops| ==> !Dispatches(ops[j], id, runner)
  }

  lemma AnotherOperation(ops: seq<Operation>, m: nat, id: string, runner: string)
    requires |ops| > 0 && LastDispatchAt(ops[..|ops| - 1], m, id, runner)
    requires !Dispatches(ops[|ops| - 1], id, runner)
    ensures LastDispatchAt(ops, m, id, runner) && ops[m] == ops[..|ops| - 1][m]
  {
    assert forall j :: 0 <= j < |ops| - 1 ==> ops[j] == ops[..|ops| - 1][j];
  }

  predicate HoldsDispatch(w: Window, d: Dispatch) {
    w == Window(d.windowId, d.target, d.runner, Some(d.backend), d.tmuxBin, d.closeWindow,
                w.status, w.createdAt, w.finishedAt, w.retentionReason)
  }

  lemma DispatchIsHeld(ws: seq<Window>, op: Operation, i: nat)
    requires Good(ws) && i < |After(ws, op)| && After(ws, op)[i].status != Cleaned
    requires Dispatches(op, After(ws, op)[i].windowId, After(ws, op)[i].runner)
    ensures HoldsDispatch(After(ws, op)[i], op.d)
  {
    var k := DispatchMeans(ws, op.d, op.now);
  }

  /** A record that is not cleaned holds what the last dispatch of its pair gave. */
  lemma {:induction false} OpenRecordHoldsLastDispatch(ops: seq<Operation>, i: nat) returns (m: nat)
    requires i < |AfterAll([], ops)| && AfterAll([], ops)[i].status != Cleaned
    ensures var w := AfterAll([], ops)[i];
      LastDispatchAt(ops, m, w.windowId, w.runner) && HoldsDispatch(w, ops[m].d)
  {
    var op, before := ops[|ops| - 1], AfterAll([], ops[..|ops| - 1]);
    var w := After(before, op)[i];
    RunsStayGood([], ops[..|ops| - 1]);
    if Dispatches(op, w.windowId, w.runner) {
      m := |ops| - 1;
      DispatchIsHeld(before, op, i);
    } else {
      RecordKeepsItsDispatch(before, op, i);
      m := OpenRecordHoldsLastDispatch(ops[..|ops| - 1], i);
      AnotherOperation(ops, m, w.windowId, w.runner);
    }
  }

  /** The report that cleans an active record. */
  ghost predicate Cleans(op: Operation, w: Window) {
    && op.Report? && op.windowId == Some(w.windowId) && op.runner == w.runner && op.turn.runNamed
    && (|| op.turn.source == StopHook(true)
        || ((op.turn.source == SelfReport || op.turn.source == ProcessExit) && op.turn.rc == Some(0)))
    && w.cleanupOnSuccess
    && (w.backend == Some(Tmux) ==> op.env.tmux == Succeeded)
    && (w.backend != Some(Tmux) ==> op.env.gui != CloseError)
  }

  lemma CleaningReport(ws: seq<Window>, op: Operation, i: nat)
    requires Good(ws) && i < |After(ws, op)| && After(ws, op)[i].status == Cleaned
    requires i < |ws| ==> ws[i].status != Cleaned
    ensures i < |ws| && Cleans(op, ws[i])
    ensures After(ws, op)[i] == ws[i].(status := Cleaned, finishedAt := Some(op.now), retentionReason := None)
  {
    OnlyReportsClean(ws, op, i);
    var k := ReportMeans(ws, op.turn, op.runner, op.windowId, op.env, op.now);
    assert k == i;
    var rc := if op.turn.source == StopHook(true) then Some(0) else op.turn.rc;
    assert !KeptFor(ws[i], rc, op.env, CompletionRc(rc));
    assert !KeptFor(ws[i], rc, op.env, KeepWindowRequested);
    assert !KeptFor(ws[i], rc, op.env, NotStarted);
    assert !KeptFor(ws[i], rc, op.env, SchedulingFailed);
    assert !KeptFor(ws[i], rc, op.env, CleanupFailed);
  }

  lemma CleanedStays(ws: seq<Window>, op: Operation, i: nat)
    requires Good(ws) && i < |ws| && ws[i].status == Cleaned
    ensures i < |After(ws, op)| && After(ws, op)[i] == ws[i]
  {
    var k := OperationChangesOneRecord(ws, op);
    assert i < |After(ws, op)| && After(ws, op)[..|ws|][i] == After(ws, op)[i];
  }

  lemma {:induction false} CleaningOperation(ops: seq<Operation>, i: nat) returns (n: nat)
    requires i < |AfterAll([], ops)| && AfterAll([], ops)[i].status == Cleaned
    ensures n < |ops| && i < |AfterAll([], ops[..n])|
    ensures var before := AfterAll([], ops[..n])[i];
      && before.status != Cleaned && Cleans(ops[n], before)
      && AfterAll([], ops)[i] == before.(status := Cleaned, finishedAt := Some(ops[n].now), retentionReason := None)
  {
    n := |ops| - 1;
    var op, before := ops[n], AfterAll([], ops[..n]);
    RunsStayGood([], ops[..n]);
    if i < |before| && before[i].status == Cleaned {
      CleanedStays(before, op, i);
      var m := CleaningOperation(ops[..n], i);
      assert ops[..n][..m] == ops[..m];
      n := m;
    } else {
      CleaningReport(before, op, i);
    }
  }

  /** Every cleaned record of a run was cleaned by a report of a completed dispatch with
      return code 0, whose close did not fail. It holds what the last dispatch of its pair
      before that report gave, and that dispatch asked for the window to be closed. */
  lemma CleanedByAReport(ops: seq<Operation>, i: nat) returns (m: nat, n: nat)
    requires i < |AfterAll([], ops)| && AfterAll([], ops)[i].status == Cleaned
    ensures m < n < |ops| && ops[m].DispatchTo? && ops[n].Report?
    ensures var w, d, op := AfterAll([], ops)[i], ops[m].d, ops[n];
      && d.closeWindow
      && w == Window(d.windowId, d.target, d.runner, Some(d.backend), d.tmuxBin, true,
                     Cleaned, w.createdAt, Some(op.now), None)
      && (forall j :: m < j < n && ops[j].DispatchTo? ==>
            !(ops[j].d.windowId == d.windowId && ops[j].d.runner == d.runner))
      && op.windowId == Some(d.windowId) && op.runner == d.runner && op.turn.runNamed
      && (|| op.turn.source == StopHook(true)
          || ((op.turn.source == SelfReport || op.turn.source == ProcessExit) && op.turn.rc == Some(0)))
      && (if d.backend == Tmux then op.env.tmux == Succeeded else op.env.gui != CloseError)
  {
    n := CleaningOperation(ops, i);
    m := OpenRecordHoldsLastDispatch(ops[..n], i);
    assert forall j :: 0 <= j < n ==> ops[j] == ops[..n][j];
  }
}
