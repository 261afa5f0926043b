/**
The dispatch-window records of a run, from src/dispatch_goal.rs and src/agent_turn.rs.
*/
module DispatchWindows {
  import opened Common
  import opened Text

  // A dispatch adds or reopens a record, timeouts and failures retain it, and the report of
  // a completed turn settles it. Every change is saved.

  datatype Backend = Tmux | Herdr | Orca | Paseo

  datatype Status = Active | Retained | Cleaned

  /** Why a window is kept. `Told` carries the reason a caller gives. */
  datatype Reason =
    | CompletionRc(rc: Option<int>)
    | KeepWindowRequested
    | SchedulingFailed
    | CleanupFailed
    | Told(text: string)
    | InvalidBackend
    | InvalidWindowId
    | NotStarted

  /** `backend` is None for a recorded name that is no backend. */
  datatype Window = Window(
    windowId: string, target: string, runner: string, backend: Option<Backend>, tmuxBin: string,
    cleanupOnSuccess: bool, status: Status, createdAt: string,
    finishedAt: Option<string>, retentionReason: Option<Reason>)
  {
    predicate Is(id: string, who: string) { windowId == id && runner == who }

    function Retain(reason: Reason, now: string): Window {
      this.(status := Retained, finishedAt := Some(now), retentionReason := Some(reason))
    }

    function Clean(now: string): Window {
      this.(status := Cleaned, finishedAt := Some(now), retentionReason := None)
    }

    function Reopen(d: Dispatch): Window {
      this.(target := d.target, tmuxBin := d.tmuxBin, backend := Some(d.backend), cleanupOnSuccess := d.closeWindow,
            status := Active, finishedAt := None, retentionReason := None)
    }

    /** The status agrees with the time and the reason. */
    predicate Coherent() {
      match status
      case Active => finishedAt.None? && retentionReason.None?
      case Retained => finishedAt.Some? && retentionReason.Some?
      case Cleaned => finishedAt.Some? && retentionReason.None? && cleanupOnSuccess
    }
  }

  datatype Dispatch = Dispatch(
    windowId: string, target: string, runner: string, backend: Backend, tmuxBin: string, closeWindow: bool)

  /** What the tmux command does: it may not start, fail, or succeed. */
  datatype TmuxRun = NoStart | Failed | Succeeded

  datatype GuiClose = Closed | Missing | CloseError

  datatype Environment = Environment(tmux: TmuxRun, gui: GuiClose)

  /** Where the report of a completed turn comes from. */
  datatype Source = SelfReport | StopHook(goalProven: bool) | ProcessExit | AnotherHook

  /** A completed turn: its source, whether the caller named the run, and the return code
      the caller gave. */
  datatype Turn = Turn(source: Source, runNamed: bool, rc: Option<int>)
  {
    predicate ClaimsCompletion() {
      source.SelfReport? || source.ProcessExit? || (source.StopHook? && source.goalProven)
    }

    /** Only a claim about a named run completes a dispatch. */
    predicate CompletesDispatch() {
      ClaimsCompletion() && runNamed
    }

    /** A proven goal counts as success whatever code was given. */
    function EffectiveRc(): Option<int> {
      if source.StopHook? && source.goalProven then Some(0) else rc
    }
  }

  predicate IsWindowId(value: string) {
    |value| > 1 && value[0] == '@' && AllDigits(value[1..])
  }

  // ---------- searching from the end ----------

  function LastWhere(ws: seq<Window>, p: Window -> bool): (r: Option<nat>)
    ensures r.Some? ==> r.value < |ws| && p(ws[r.value])
    ensures r.Some? ==> forall i :: r.value < i < |ws| ==> !p(ws[i])
    ensures r.None? ==> forall i :: 0 <= i < |ws| ==> !p(ws[i])
  {
    if ws == [] then None
    else if p(ws[|ws| - 1]) then Some(|ws| - 1)
    else LastWhere(ws[..|ws| - 1], p)
  }

  function ActiveWith(id: string, runner: string): Window -> bool {
    (w: Window) => w.Is(id, runner) && w.status == Active
  }

  function OpenWith(id: string, runner: string): Window -> bool {
    (w: Window) => w.Is(id, runner) && w.status != Cleaned
  }

  function ActiveId(id: string): Window -> bool {
    (w: Window) => w.windowId == id && w.status == Active
  }

  function AnyActive(): Window -> bool {
    (w: Window) => w.status == Active
  }

  // ---------- what the operations do ----------

  function AfterDispatch(ws: seq<Window>, d: Dispatch, now: string): seq<Window> {
    var k := LastWhere(ws, OpenWith(d.windowId, d.runner));
    if k.Some? then ws[k.value := ws[k.value].Reopen(d)]
    else
      ws + [Window(d.windowId, d.target, d.runner, Some(d.backend), d.tmuxBin, d.closeWindow, Active, now, None, None)]
  }

  function RetainLast(ws: seq<Window>, p: Window -> bool, reason: Reason, now: string): seq<Window> {
    var k := LastWhere(ws, p);
    if k.Some? then ws[k.value := ws[k.value].Retain(reason, now)] else ws
  }

  function AfterRetain(ws: seq<Window>, id: string, reason: string, now: string): seq<Window> {
    RetainLast(ws, ActiveId(id), Told(reason), now)
  }

  function AfterRetainLatest(ws: seq<Window>, reason: string, now: string): seq<Window> {
    var k := LastWhere(ws, AnyActive());
    if k.Some? then AfterRetain(ws, ws[k.value].windowId, reason, now) else ws
  }

  /** The close of an active window: the record afterwards and the error raised, if any. */
  function Finished(w: Window, rc: Option<int>, env: Environment, now: string): (Window, Option<Reason>) {
    if w.backend.None? then (w, Some(InvalidBackend))
    else if w.backend == Some(Tmux) && !IsWindowId(w.windowId) then (w, Some(InvalidWindowId))
    else if rc != Some(0) then (w.Retain(CompletionRc(rc), now), None)
    else if !w.cleanupOnSuccess then (w.Retain(KeepWindowRequested, now), None)
    else if w.backend == Some(Tmux) then
      match env.tmux
      case NoStart => (w, Some(NotStarted))
      case Failed => (w.Retain(SchedulingFailed, now), Some(SchedulingFailed))
      case Succeeded => (w.Clean(now), None)
    else if env.gui == CloseError then (w.Retain(CleanupFailed, now), Some(CleanupFailed))
    else (w.Clean(now), None)
  }

  /** A completion report: the last active record of the pair is settled, and retained if
      settling it raised an error and left it active. */
  function AfterReport(ws: seq<Window>, runner: string, id: string, rc: Option<int>, env: Environment, now: string)
    : seq<Window>
  {
    var k := LastWhere(ws, ActiveWith(id, runner));
    if k.None? then ws
    else
      var (w, error) := Finished(ws[k.value], rc, env, now);
      var settled := ws[k.value := w];
      if error.Some? then RetainLast(settled, ActiveWith(id, runner), error.value, now) else settled
  }

  datatype Operation =
    | DispatchTo(d: Dispatch, now: string)
    | RetainWindow(id: string, reason: string, now: string)
    | RetainNewest(reason: string, now: string)
    | Report(turn: Turn, runner: string, windowId: Option<string>, env: Environment, now: string)

  function After(ws: seq<Window>, op: Operation): seq<Window> {
    match op
    case DispatchTo(d, now) => AfterDispatch(ws, d, now)
    case RetainWindow(id, reason, now) => AfterRetain(ws, id, reason, now)
    case RetainNewest(reason, now) => AfterRetainLatest(ws, reason, now)
    case Report(turn, runner, id, env, now) =>
      if turn.CompletesDispatch() && id.Some?
      then AfterReport(ws, runner, id.value, turn.EffectiveRc(), env, now)
      else ws
  }

  function AfterAll(ws: seq<Window>, ops: seq<Operation>): seq<Window> {
    if ops == [] then ws else After(AfterAll(ws, ops[..|ops| - 1]), ops[|ops| - 1])
  }

  // ---------- the code ----------

  class RunState {
    var windows: seq<Window>

    constructor ()
      ensures windows == []
    {
      windows := [];
    }

    method FindFromEnd(p: Window -> bool) returns (index: Option<nat>)
      ensures index == LastWhere(windows, p)
    {
      var n := |windows|;
      while n > 0
        invariant 0 <= n <= |windows|
        invariant LastWhere(windows, p) == LastWhere(windows[..n], p)
      {
        n := n - 1;
        assert windows[..n + 1][..n] == windows[..n];
        if p(windows[n]) {
          return Some(n);
        }
      }
      return None;
    }

    method PersistDispatchWindow(d: Dispatch, now: string)
      modifies this
      ensures windows == AfterDispatch(old(windows), d, now)
    {
      var k := FindFromEnd(OpenWith(d.windowId, d.runner));
      if k.Some? {
        var window := windows[k.value];
        window := window.(target := d.target, tmuxBin := d.tmuxBin, backend := Some(d.backend));
        window := window.(cleanupOnSuccess := d.closeWindow, status := Active);
        windows := windows[k.value := window.(finishedAt := None, retentionReason := None)];
        return;
      }
      windows := windows + [Window(d.windowId, d.target, d.runner, Some(d.backend), d.tmuxBin, d.closeWindow,
                                   Active, now, None, None)];
    }

    method RetainDispatchWindow(id: string, reason: string, now: string)
      modifies this
      ensures windows == AfterRetain(old(windows), id, reason, now)
    {
      var k := FindFromEnd(ActiveId(id));
      if k.Some? {
        SetRetained(k.value, Told(reason), now);
      }
    }

    method RetainLatestDispatchWindow(reason: string, now: string)
      modifies this
      ensures windows == AfterRetainLatest(old(windows), reason, now)
    {
      var k := FindFromEnd(AnyActive());
      if k.Some? {
        RetainDispatchWindow(windows[k.value].windowId, reason, now);
      }
    }

    method SetRetained(index: nat, reason: Reason, now: string)
      requires index < |windows|
      modifies this
      ensures windows == old(windows)[index := old(windows)[index].Retain(reason, now)]
    {
      windows := windows[index := windows[index].(status := Retained)];
      windows := windows[index := windows[index].(finishedAt := Some(now))];
      windows := windows[index := windows[index].(retentionReason := Some(reason))];
    }

    method RecordGuiCleanup(index: nat, closed: GuiClose, now: string) returns (error: Option<Reason>)
      requires index < |windows|
      modifies this
      ensures error == if closed == CloseError then Some(CleanupFailed) else None
      ensures windows == if error.Some? then old(windows)[index := old(windows)[index].Retain(CleanupFailed, now)]
                         else old(windows)
    {
      match closed {
        case Closed => error := None;
        case Missing => error := None;
        case CloseError =>
          SetRetained(index, CleanupFailed, now);
          error := Some(CleanupFailed);
      }
    }

    method FinishDispatchWindow(runner: string, id: string, rc: Option<int>, env: Environment, now: string)
        returns (error: Option<Reason>)
      modifies this
      ensures var k := LastWhere(old(windows), ActiveWith(id, runner));
        if k.None? then windows == old(windows) && error.None?
        else
          var (w, e) := Finished(old(windows)[k.value], rc, env, now);
          windows == old(windows)[k.value := w] && error == e
    {
      var k := FindFromEnd(ActiveWith(id, runner));
      if k.None? {
        return None;
      }
      var index := k.value;
      var window := windows[index];
      assert windows == windows[index := window];
      if window.backend.None? {
        return Some(InvalidBackend);
      }
      if window.backend.value == Tmux && !IsWindowId(id) {
        return Some(InvalidWindowId);
      }
      if rc != Some(0) || !window.cleanupOnSuccess {
        SetRetained(index, if rc != Some(0) then CompletionRc(rc) else KeepWindowRequested, now);
        return None;
      }
      match window.backend.value {
        case Tmux =>
          if env.tmux == NoStart {
            return Some(NotStarted);
          }
          if env.tmux == Failed {
            SetRetained(index, SchedulingFailed, now);
            return Some(SchedulingFailed);
          }
        case _ =>
          var failed := RecordGuiCleanup(index, env.gui, now);
          if failed.Some? {
            return failed;
          }
      }
      windows := windows[index := windows[index].(status := Cleaned)];
      windows := windows[index := windows[index].(finishedAt := Some(now))];
      windows := windows[index := windows[index].(retentionReason := None)];
      return None;
    }

    method RetainActiveAfterCleanupError(runner: string, id: string, reason: Reason, now: string)
      modifies this
      ensures windows == RetainLast(old(windows), ActiveWith(id, runner), reason, now)
    {
      var k := FindFromEnd(ActiveWith(id, runner));
      if k.Some? {
        SetRetained(k.value, reason, now);
      }
    }

    /** The end of a completed turn. A turn that completes no dispatch, or has no window id,
        settles nothing. */
    method CompleteTurn(turn: Turn, runner: string, windowId: Option<string>, env: Environment, now: string)
      modifies this
      ensures windows == After(old(windows), Report(turn, runner, windowId, env, now))
    {
      var selfReport := turn.source == SelfReport;
      var processExit := turn.source == ProcessExit;
      var goalProven := selfReport || (turn.source.StopHook? && turn.source.goalProven);
      var dispatchCompleted := (goalProven || processExit) && turn.runNamed;
      var rc := turn.rc;
      if !selfReport && !processExit && goalProven {
        rc := Some(0);
      }
      if dispatchCompleted && windowId.Some? {
        var error := FinishDispatchWindow(runner, windowId.value, rc, env, now);
        if error.Some? {
          RetainActiveAfterCleanupError(runner, windowId.value, error.value, now);
        }
      }
    }
  }

  // ---------- what every operation keeps ----------

  ghost predicate OneOpenPerPair(ws: seq<Window>) {
    forall i, j :: 0 <= i < j < |ws| && ws[i].status != Cleaned && ws[j].status != Cleaned ==>
      !ws[j].Is(ws[i].windowId, ws[i].runner)
  }

  ghost predicate AllCoherent(ws: seq<Window>) {
    forall i :: 0 <= i < |ws| ==> ws[i].Coherent()
  }

  ghost predicate Good(ws: seq<Window>) {
    OneOpenPerPair(ws) && AllCoherent(ws)
  }

  /** What may happen to one record: it keeps its pair and its creation time, a cleaned
      one stays as it is, and an active one becomes retained or cleaned, a retained one
      only active. */
  predicate Successor(before: Window, after: Window) {
    && after.Is(before.windowId, before.runner) && after.createdAt == before.createdAt
    && (before.status == Cleaned ==> after == before)
    && (before.status == Retained ==> after == before || after.status == Active)
  }

  ghost predicate OneChange(before: seq<Window>, after: seq<Window>, k: nat) {
    && k < |before| == |after| && after == before[k := after[k]] && Successor(before[k], after[k])
  }

  lemma OneChangeKeepsGood(before: seq<Window>, after: seq<Window>, k: nat)
    requires Good(before) && OneChange(before, after, k) && before[k].status != Cleaned && after[k].Coherent()
    ensures Good(after)
  {
  }

  /** Each operation adds one record, changes one, or changes nothing. */
  lemma OperationChangesOneRecord(ws: seq<Window>, op: Operation) returns (k: nat)
    requires Good(ws)
    ensures var next := After(ws, op);
      && Good(next)
      && (|| next == ws
          || (OneChange(ws, next, k) && ws[k].status != Cleaned)
          || (op.DispatchTo? && next[..|ws|] == ws && |next| == |ws| + 1 && next[|ws|].Is(op.d.windowId, op.d.runner)))
  {
    var next := After(ws, op);
    k := 0;
    match op {
      case DispatchTo(d, now) =>
        var found := LastWhere(ws, OpenWith(d.windowId, d.runner));
        if found.Some? {
          k := found.value;
          OneChangeKeepsGood(ws, next, k);
        }
      case RetainWindow(id, reason, now) =>
        k := RetainChangesOne(ws, ActiveId(id), Told(reason), now);
      case RetainNewest(reason, now) =>
        var found := LastWhere(ws, AnyActive());
        if found.Some? {
          k := RetainChangesOne(ws, ActiveId(ws[found.value].windowId), Told(reason), now);
        }
      case Report(turn, runner, id, env, now) =>
        if turn.CompletesDispatch() && id.Some? && LastWhere(ws, ActiveWith(id.value, runner)).Some? {
          k := ReportSettles(ws, runner, id.value, turn.EffectiveRc(), env, now);
          OneChangeKeepsGood(ws, next, k);
        }
    }
  }

  lemma RetainChangesOne(ws: seq<Window>, p: Window -> bool, reason: Reason, now: string) returns (k: nat)
    requires Good(ws) && forall w :: p(w) ==> w.status == Active
    ensures var next := RetainLast(ws, p, reason, now);
      Good(next) && (next == ws || (OneChange(ws, next, k) && ws[k].status != Cleaned))
  {
    k := 0;
    var found := LastWhere(ws, p);
    if found.Some? {
      k := found.value;
      OneChangeKeepsGood(ws, RetainLast(ws, p, reason, now), k);
    }
  }

  /** What the close of an active record amounts to once its errors are dealt with. */
  function Settled(w: Window, rc: Option<int>, env: Environment, now: string): Window {
    var (after, error) := Finished(w, rc, env, now);
    if after.status == Active && error.Some? then after.Retain(error.value, now) else after
  }

  /** Cleaning takes a known backend, for tmux a well-formed id, return code 0, the opt-in
      and a close that does not fail. */
  lemma CleanedExactlyWhen(w: Window, rc: Option<int>, env: Environment, now: string)
    requires w.status == Active && w.Coherent()
    ensures var after := Settled(w, rc, env, now);
      && (after.status == Cleaned <==>
            && w.backend.Some? && rc == Some(0) && w.cleanupOnSuccess
            && (w.backend.value == Tmux ==> IsWindowId(w.windowId) && env.tmux == Succeeded)
            && (w.backend.value != Tmux ==> env.gui != CloseError))
      && after.status != Active && after.Coherent() && Successor(w, after)
  {
  }

  /** A report settles the one active record of its pair, and only that record. */
  lemma ReportSettles(ws: seq<Window>, runner: string, id: string, rc: Option<int>, env: Environment, now: string)
      returns (k: nat)
    requires Good(ws) && LastWhere(ws, ActiveWith(id, runner)).Some?
    ensures k < |ws| && ws[k].Is(id, runner) && ws[k].status == Active
    ensures var next := AfterReport(ws, runner, id, rc, env, now);
      OneChange(ws, next, k) && next[k] == Settled(ws[k], rc, env, now) && next[k].Coherent()
  {
    k := LastWhere(ws, ActiveWith(id, runner)).value;
    CleanedExactlyWhen(ws[k], rc, env, now);
    var (w, error) := Finished(ws[k], rc, env, now);
    var settled := ws[k := w];
    if error.Some? {
      var again := LastWhere(settled, ActiveWith(id, runner));
      if again.Some? {
        assert again.value == k;
      }
    }
  }

  // ---------- runs ----------

  lemma {:induction false} RunsStayGood(ws: seq<Window>, ops: seq<Operation>)
    requires Good(ws)
    ensures Good(AfterAll(ws, ops))
  {
    if ops != [] {
      RunsStayGood(ws, ops[..|ops| - 1]);
      var k := OperationChangesOneRecord(AfterAll(ws, ops[..|ops| - 1]), ops[|ops| - 1]);
    }
  }

  /** From an empty list on, whatever is dispatched, retained, reported or fails to close:
      each pair has at most one record that is not cleaned, and every status agrees with
      its time and reason. */
  lemma RunsFromNothing(ops: seq<Operation>)
    ensures var ws := AfterAll([], ops);
      && (forall i, j :: 0 <= i < j < |ws| && ws[i].status != Cleaned && ws[j].status != Cleaned ==>
            !(ws[i].windowId == ws[j].windowId && ws[i].runner == ws[j].runner))
      && (forall i :: 0 <= i < |ws| ==>
            && (ws[i].status == Active <==> ws[i].finishedAt.None?)
            && (ws[i].status == Retained <==> ws[i].retentionReason.Some?)
            && (ws[i].status == Cleaned ==> ws[i].cleanupOnSuccess))
  {
    RunsStayGood([], ops);
  }

  /** A cleaned record never changes again. */
  lemma {:induction false} CleanedIsForever(ws: seq<Window>, ops: seq<Operation>, i: nat)
    requires Good(ws) && i < |ws| && ws[i].status == Cleaned
    ensures i < |AfterAll(ws, ops)| && AfterAll(ws, ops)[i] == ws[i]
  {
    if ops != [] {
      var before := AfterAll(ws, ops[..|ops| - 1]);
      CleanedIsForever(ws, ops[..|ops| - 1], i);
      RunsStayGood(ws, ops[..|ops| - 1]);
      var k := OperationChangesOneRecord(before, ops[|ops| - 1]);
      assert AfterAll(ws, ops)[..|before|][i] == AfterAll(ws, ops)[i];
    }
  }

  /** A record becomes cleaned only by a report of its own pair. */
  lemma OnlyReportsClean(ws: seq<Window>, op: Operation, i: nat)
    requires Good(ws) && i < |After(ws, op)| && After(ws, op)[i].status == Cleaned
    ensures i < |ws|
    ensures
      || ws[i].status == Cleaned
      || (ws[i].status == Active && op.Report? && op.windowId == Some(ws[i].windowId) && op.runner == ws[i].runner)
  {
    var k := OperationChangesOneRecord(ws, op);
    if op.Report? && op.turn.CompletesDispatch() && op.windowId.Some?
       && LastWhere(ws, ActiveWith(op.windowId.value, op.runner)).Some? {
      var j := ReportSettles(ws, op.runner, op.windowId.value, op.turn.EffectiveRc(), op.env, op.now);
    }
  }

  /** After a report no record of its pair is active, and records of other pairs are as
      they were. */
  lemma ReportLeavesNothingActive(
    ws: seq<Window>, runner: string, id: string, rc: Option<int>, env: Environment, now: string)
    requires Good(ws)
    ensures var next := AfterReport(ws, runner, id, rc, env, now);
      && |next| == |ws|
      && forall i :: 0 <= i < |ws| ==>
           if ws[i].Is(id, runner) then next[i].Is(id, runner) && next[i].status != Active else next[i] == ws[i]
  {
    if LastWhere(ws, ActiveWith(id, runner)).Some? {
      var k := ReportSettles(ws, runner, id, rc, env, now);
      CleanedExactlyWhen(ws[k], rc, env, now);
    }
  }

  /** A repeated report, whatever its return code or the state of the backend, changes
      nothing. */
  lemma RepeatedReportChangesNothing(
    ws: seq<Window>, runner: string, id: string, rc: Option<int>, env: Environment, now: string,
    rc': Option<int>, env': Environment, now': string)
    requires Good(ws)
    ensures var next := AfterReport(ws, runner, id, rc, env, now);
      AfterReport(next, runner, id, rc', env', now') == next
  {
    ReportLeavesNothingActive(ws, runner, id, rc, env, now);
  }

  /** Retaining the newest active window retains exactly the last active record. */
  lemma NewestIsRetained(ws: seq<Window>, reason: string, now: string)
    ensures AfterRetainLatest(ws, reason, now) == RetainLast(ws, AnyActive(), Told(reason), now)
  {
    var k := LastWhere(ws, AnyActive());
    if k.Some? {
      var j := LastWhere(ws, ActiveId(ws[k.value].windowId));
      assert j == k;
    }
  }

  /** A retention that names a window does not name the runner: it retains the record of
      a pair exactly when that record is the last active one with the window's id. */
  lemma RetainHitsPairExactlyWhen(ws: seq<Window>, i: nat, reason: string, now: string)
    requires Good(ws) && i < |ws| && ws[i].status == Active
    ensures AfterRetain(ws, ws[i].windowId, reason, now)[i].status == Retained <==>
      forall j :: i < j < |ws| && ws[j].windowId == ws[i].windowId ==> ws[j].status != Active
  {
    var k := LastWhere(ws, ActiveId(ws[i].windowId));
    assert k.Some? && i <= k.value;
  }
}
