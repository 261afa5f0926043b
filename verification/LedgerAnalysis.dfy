/**
The analysis of a sequence of rounds in src/ledger.rs.
*/
module LedgerAnalysis {
  import opened Common
  import opened Text

  // It consists of the verdict of evaluate_ledger and the diagnosis with its turns, peaks
  // and envelope. The lemmas say how they fit together.

  datatype Round = Round(
    roundLabel: string, high: nat, critical: nat, auditors: Option<string>, coverage: Option<string>)

  datatype Verdict = NoObservations | Converged | Converging | Rebound | Stalled

  datatype Sufficiency = Insufficient | Sufficient
  datatype Terminal = Zero | Nonzero
  datatype Direction = Improving | Level | Worsening | Mixed
  datatype Oscillation = Steady | SingleRebound | Alternating
  datatype Envelope = Shrinking | Flat | Expanding | Unknown
  datatype Confidence = LowNoLineage | AdvisoryLineageRecorded

  datatype Diagnostics = Diagnostics(
    sampleSufficiency: Sufficiency,
    terminal: Terminal,
    direction: Direction,
    oscillation: Oscillation,
    envelope: Envelope,
    confidence: Confidence)
  {
    predicate SuggestsEntropyReview() {
      sampleSufficiency == Sufficient
      && oscillation != SingleRebound
      && (oscillation == Alternating || envelope != Shrinking)
    }
  }

  /** High plus critical, saturating at the largest u64. */
  function Blockers(r: Round): nat {
    if r.high + r.critical > U64_MAX then U64_MAX else r.high + r.critical
  }

  function BlockersOf(rounds: seq<Round>): (xs: seq<nat>)
    ensures |xs| == |rounds|
    ensures forall i :: 0 <= i < |xs| ==> xs[i] == Blockers(rounds[i])
  {
    seq(|rounds|, i requires 0 <= i < |rounds| => Blockers(rounds[i]))
  }

  // ---------- verdict ----------

  ghost predicate HasRise(xs: seq<nat>) {
    exists i :: 0 < i < |xs| && xs[i - 1] < xs[i]
  }

  ghost predicate StrictlyDecreasing(xs: seq<nat>) {
    forall i :: 0 < i < |xs| ==> xs[i] < xs[i - 1]
  }

  /** What the first offending pair from position `i` on decides. */
  function FirstStop(xs: seq<nat>, strict: bool, i: nat): Verdict
    decreases |xs| - i
  {
    if i + 1 >= |xs| then Converging
    else if xs[i + 1] > xs[i] then Rebound
    else if strict && xs[i + 1] == xs[i] && xs[i + 1] > 0 then Stalled
    else FirstStop(xs, strict, i + 1)
  }

  function VerdictOf(xs: seq<nat>, strict: bool): Verdict {
    if xs == [] then NoObservations
    else if xs[|xs| - 1] == 0 then Converged
    else FirstStop(xs, strict, 0)
  }

  function Evaluation(rounds: seq<Round>, strict: bool): Verdict {
    VerdictOf(BlockersOf(rounds), strict)
  }

  method EvaluateLedger(rounds: seq<Round>, strict: bool) returns (v: Verdict)
    ensures v == Evaluation(rounds, strict)
  {
    if rounds == [] {
      return NoObservations;
    }
    var blockers := BlockersOf(rounds);
    if blockers[|blockers| - 1] == 0 {
      return Converged;
    }
    var i := 0;
    while i + 1 < |blockers|
      invariant i < |blockers|
      invariant FirstStop(blockers, strict, 0) == FirstStop(blockers, strict, i)
    {
      if blockers[i + 1] > blockers[i] {
        return Rebound;
      }
      if strict && blockers[i + 1] == blockers[i] && blockers[i + 1] > 0 {
        return Stalled;
      }
      i := i + 1;
    }
    return Converging;
  }

  lemma {:induction false} LenientStop(xs: seq<nat>, i: nat)
    ensures FirstStop(xs, false, i) ==
      if exists k :: i < k < |xs| && xs[k - 1] < xs[k] then Rebound else Converging
    decreases |xs| - i
  {
    if i + 1 < |xs| {
      LenientStop(xs, i + 1);
    }
  }

  lemma {:induction false} StrictStop(xs: seq<nat>, i: nat)
    ensures FirstStop(xs, true, i) == Converging <==>
      forall k :: i < k < |xs| ==> xs[k] < xs[k - 1] || (xs[k] == 0 && xs[k - 1] == 0)
    decreases |xs| - i
  {
    if i + 1 < |xs| {
      StrictStop(xs, i + 1);
    }
  }

  lemma {:induction false} ZeroStaysZero(xs: seq<nat>, k: nat)
    requires k < |xs| && xs[k] == 0
    requires forall j :: k < j < |xs| ==> xs[j] <= xs[j - 1]
    ensures xs[|xs| - 1] == 0
    decreases |xs| - k
  {
    if k + 1 < |xs| {
      ZeroStaysZero(xs, k + 1);
    }
  }

  /** Which sequences get which verdict. */
  lemma VerdictMeaning(xs: seq<nat>)
    ensures forall strict :: VerdictOf(xs, strict) == NoObservations <==> xs == []
    ensures forall strict :: VerdictOf(xs, strict) == Converged <==> xs != [] && xs[|xs| - 1] == 0
    ensures VerdictOf(xs, false) == Rebound <==> xs != [] && xs[|xs| - 1] != 0 && HasRise(xs)
    ensures VerdictOf(xs, false) == Converging <==> xs != [] && xs[|xs| - 1] != 0 && !HasRise(xs)
    ensures VerdictOf(xs, true) == Converging <==> xs != [] && xs[|xs| - 1] != 0 && StrictlyDecreasing(xs)
  {
    LenientStop(xs, 0);
    StrictStop(xs, 0);
    forall strict: bool
      ensures FirstStop(xs, strict, 0) != NoObservations && FirstStop(xs, strict, 0) != Converged
    {
      StopKinds(xs, strict, 0);
    }
    if xs != [] && xs[|xs| - 1] != 0 && FirstStop(xs, true, 0) == Converging {
      forall k | 0 < k < |xs|
        ensures xs[k] < xs[k - 1]
      {
        if xs[k] == 0 {
          ZeroStaysZero(xs, k);
        }
      }
    }
  }

  /** The pair at `k` is the first that does not fall. */
  ghost predicate FirstNotFalling(xs: seq<nat>, k: nat) {
    0 < k < |xs| && xs[k - 1] <= xs[k] && forall j :: 0 < j < k ==> xs[j] < xs[j - 1]
  }

  lemma {:induction false} FallsArePassed(xs: seq<nat>, i: nat, k: nat)
    requires i < k < |xs| && forall j :: i < j < k ==> xs[j] < xs[j - 1]
    ensures FirstStop(xs, true, i) == FirstStop(xs, true, k - 1)
    decreases k - i
  {
    if i + 1 < k {
      FallsArePassed(xs, i + 1, k);
    }
  }

  lemma {:induction false} RiseFromZero(xs: seq<nat>, i: nat)
    requires i < |xs| && xs[i] == 0 && xs[|xs| - 1] != 0
    ensures FirstStop(xs, true, i) == Rebound
    decreases |xs| - i
  {
    if xs[i + 1] == 0 {
      RiseFromZero(xs, i + 1);
    }
  }

  lemma {:induction false} SomeFirstNotFalling(xs: seq<nat>, i: nat) returns (k: nat)
    requires i < |xs| && (forall j :: 0 < j <= i ==> xs[j] < xs[j - 1])
    requires exists j :: i < j < |xs| && xs[j - 1] <= xs[j]
    ensures FirstNotFalling(xs, k)
    decreases |xs| - i
  {
    if xs[i] <= xs[i + 1] {
      k := i + 1;
    } else {
      k := SomeFirstNotFalling(xs, i + 1);
    }
  }

  /** What the strict verdict is at the first pair that does not fall. */
  lemma StopAtFirstNotFalling(xs: seq<nat>, k: nat)
    requires FirstNotFalling(xs, k) && xs[|xs| - 1] != 0
    ensures VerdictOf(xs, true) == if xs[k - 1] == xs[k] != 0 then Stalled else Rebound
  {
    FallsArePassed(xs, 0, k);
    if xs[k] == 0 {
      RiseFromZero(xs, k);
    }
  }

  /** The strict verdict of a list that ends above zero and does not fall throughout is
      decided by the first pair that does not fall: Stalled if it is level above zero, and
      otherwise, a level pair of zeros included, Rebound. */
  lemma StrictVerdictMeaning(xs: seq<nat>)
    ensures VerdictOf(xs, true) == Stalled <==>
      xs != [] && xs[|xs| - 1] != 0 && exists k: nat :: FirstNotFalling(xs, k) && xs[k - 1] == xs[k] != 0
    ensures VerdictOf(xs, true) == Rebound <==>
      xs != [] && xs[|xs| - 1] != 0 && exists k: nat :: FirstNotFalling(xs, k) && (xs[k - 1] < xs[k] || xs[k] == 0)
  {
    VerdictMeaning(xs);
    if xs != [] && xs[|xs| - 1] != 0 {
      forall k: nat | FirstNotFalling(xs, k)
        ensures VerdictOf(xs, true) == if xs[k - 1] == xs[k] != 0 then Stalled else Rebound
      {
        StopAtFirstNotFalling(xs, k);
      }
      if !StrictlyDecreasing(xs) {
        var k := SomeFirstNotFalling(xs, 0);
        assert FirstNotFalling(xs, k);
      }
    }
  }

  lemma {:induction false} StopKinds(xs: seq<nat>, strict: bool, i: nat)
    ensures FirstStop(xs, strict, i) in {Converging, Rebound, Stalled}
    ensures !strict ==> FirstStop(xs, strict, i) != Stalled
    decreases |xs| - i
  {
    if i + 1 < |xs| {
      StopKinds(xs, strict, i + 1);
    }
  }

  // ---------- moves, turns and peaks ----------

  /** The non-level moves in order, true for a rise. */
  function Moves(xs: seq<nat>): seq<bool> {
    if |xs| < 2 then []
    else
      var n := |xs|;
      Moves(xs[..n - 1]) + if xs[n - 1] == xs[n - 2] then [] else [xs[n - 1] > xs[n - 2]]
  }

  /** How often the direction changes. */
  function Turns(moves: seq<bool>): nat {
    if |moves| < 2 then 0
    else
      var n := |moves|;
      Turns(moves[..n - 1]) + if moves[n - 1] != moves[n - 2] then 1 else 0
  }

  /** The values with every plateau reduced to one value. */
  function Dedup(xs: seq<nat>): seq<nat> {
    if xs == [] then []
    else
      var n := |xs|;
      var before := Dedup(xs[..n - 1]);
      if before != [] && before[|before| - 1] == xs[n - 1] then before else before + [xs[n - 1]]
  }

  predicate NoPlateau(xs: seq<nat>) {
    forall i :: 0 < i < |xs| ==> xs[i - 1] != xs[i]
  }

  /** Higher than each neighbour it has. */
  predicate IsPeak(xs: seq<nat>, i: nat)
    requires i < |xs|
  {
    (i == 0 || xs[i] > xs[i - 1]) && (i + 1 == |xs| || xs[i] > xs[i + 1])
  }

  function PeaksUpTo(xs: seq<nat>, n: nat): seq<nat>
    requires n <= |xs|
  {
    if n == 0 then []
    else PeaksUpTo(xs, n - 1) + if IsPeak(xs, n - 1) then [xs[n - 1]] else []
  }

  /** The local maxima, plateaus counting once. */
  function Peaks(xs: seq<nat>): seq<nat> {
    PeaksUpTo(Dedup(xs), |Dedup(xs)|)
  }

  method PeakValues(values: seq<nat>) returns (peaks: seq<nat>)
    ensures peaks == Peaks(values)
  {
    var deduped: seq<nat> := [];
    for i := 0 to |values|
      invariant deduped == Dedup(values[..i])
    {
      assert values[..i + 1][..i] == values[..i];
      if deduped == [] || deduped[|deduped| - 1] != values[i] {
        deduped := deduped + [values[i]];
      }
    }
    assert values[..|values|] == values;
    if |deduped| < 2 {
      if deduped != [] {
        assert PeaksUpTo(deduped, 1) == PeaksUpTo(deduped, 0) + [deduped[0]];
      }
      return deduped;
    }
    peaks := [];
    if deduped[0] > deduped[1] {
      peaks := peaks + [deduped[0]];
    }
    assert PeaksUpTo(deduped, 1) == PeaksUpTo(deduped, 0) + if IsPeak(deduped, 0) then [deduped[0]] else [];
    var w := 0;
    while w + 2 < |deduped|
      invariant w + 1 < |deduped|
      invariant peaks == PeaksUpTo(deduped, w + 1)
    {
      if deduped[w + 1] > deduped[w] && deduped[w + 1] > deduped[w + 2] {
        peaks := peaks + [deduped[w + 1]];
      }
      w := w + 1;
    }
    var last := |deduped| - 1;
    if deduped[last] > deduped[last - 1] {
      peaks := peaks + [deduped[last]];
    }
  }

  lemma {:induction false} DedupShape(xs: seq<nat>)
    ensures NoPlateau(Dedup(xs))
    ensures (Dedup(xs) == []) == (xs == [])
    ensures xs != [] ==> Dedup(xs)[|Dedup(xs)| - 1] == xs[|xs| - 1]
  {
    if xs != [] {
      DedupShape(xs[..|xs| - 1]);
    }
  }

  /** Reducing plateaus keeps every real move. */
  lemma {:induction false} DedupKeepsMoves(xs: seq<nat>)
    ensures Moves(Dedup(xs)) == Moves(xs)
  {
    if xs != [] {
      var n := |xs|;
      var before := xs[..n - 1];
      DedupKeepsMoves(before);
      DedupShape(before);
      if n >= 2 {
        var d := Dedup(before);
        assert before[|before| - 1] == xs[n - 2];
        if d[|d| - 1] != xs[n - 1] {
          assert (d + [xs[n - 1]])[..|d|] == d;
        }
      }
    }
  }

  /** Without plateaus there is one move per step. */
  lemma {:induction false} MovesOfSteps(d: seq<nat>)
    requires NoPlateau(d)
    ensures d != [] ==> |Moves(d)| == |d| - 1
    ensures forall i :: 0 < i < |d| ==> Moves(d)[i - 1] == (d[i] > d[i - 1])
  {
    if |d| >= 2 {
      var before := d[..|d| - 1];
      assert forall i :: 0 <= i < |before| ==> before[i] == d[i];
      MovesOfSteps(before);
    }
  }

  /** Of the first `n` values, whose right neighbours are known, the peaks are as many
      as the tops the first `n` moves went over. */
  lemma {:induction false} PeaksBehind(d: seq<nat>, n: nat)
    requires NoPlateau(d) && 1 <= n < |d|
    ensures n <= |Moves(d)|
    ensures var t := Turns(Moves(d)[..n]);
      var p := |PeaksUpTo(d, n)|;
      && (Moves(d)[0] ==> 2 * p == t + t % 2 && Moves(d)[n - 1] == (t % 2 == 0))
      && (!Moves(d)[0] ==> 2 * p == t + 2 - t % 2 && Moves(d)[n - 1] == (t % 2 == 1))
  {
    MovesOfSteps(d);
    var m := Moves(d);
    if n == 1 {
      assert PeaksUpTo(d, 1) == PeaksUpTo(d, 0) + if IsPeak(d, 0) then [d[0]] else [];
    } else {
      PeaksBehind(d, n - 1);
      assert m[..n][..n - 1] == m[..n - 1];
    }
  }

  /** Turns and peaks of a sequence determine each other but for the first move. */
  lemma TurnsAndPeaks(xs: seq<nat>)
    requires xs != []
    ensures var t := Turns(Moves(xs));
      var p := |Peaks(xs)|;
      && t + 1 <= 2 * p <= t + 3
      && (t % 2 == 0 ==> 2 * p == t + 2)
      && (t % 2 == 1 ==> 2 * p == if Moves(xs)[0] then t + 1 else t + 3)
  {
    var d := Dedup(xs);
    DedupShape(xs);
    DedupKeepsMoves(xs);
    MovesOfSteps(d);
    var m := Moves(d);
    if |d| == 1 {
      assert PeaksUpTo(d, 1) == PeaksUpTo(d, 0) + [d[0]];
    } else {
      var n := |d| - 1;
      PeaksBehind(d, n);
      assert m[..n] == m;
    }
  }

  // ---------- diagnosis ----------

  function DirectionOf(moves: seq<bool>): Direction {
    if false in moves then (if true in moves then Mixed else Improving)
    else if true in moves then Worsening
    else Level
  }

  function OscillationOf(turns: nat): Oscillation {
    if turns == 0 then Steady else if turns == 1 then SingleRebound else Alternating
  }

  function EnvelopeOf(peaks: seq<nat>): Envelope {
    if |peaks| < 2 then Unknown
    else if forall i :: 0 <= i < |peaks| - 1 ==> peaks[i + 1] < peaks[i] then Shrinking
    else if forall i :: 0 <= i < |peaks| - 1 ==> peaks[i + 1] > peaks[i] then Expanding
    else if forall i :: 0 <= i < |peaks| - 1 ==> peaks[i + 1] == peaks[i] then Flat
    else Unknown
  }

  function NonBlank(cell: Option<string>): bool {
    cell.Some? && Trim(cell.value) != []
  }

  predicate HasLineage(r: Round) {
    NonBlank(r.auditors) && NonBlank(r.coverage)
  }

  function Diagnosis(rounds: seq<Round>): Option<Diagnostics> {
    if rounds == [] then None
    else
      var xs := BlockersOf(rounds);
      Some(Diagnostics(
        if |rounds| < 3 then Insufficient else Sufficient,
        if xs[|xs| - 1] == 0 then Zero else Nonzero,
        DirectionOf(Moves(xs)),
        OscillationOf(Turns(Moves(xs))),
        EnvelopeOf(Peaks(xs)),
        if forall i :: 0 <= i < |rounds| ==> HasLineage(rounds[i])
        then AdvisoryLineageRecorded else LowNoLineage))
  }

  /** The comparison of the second value of a pair with the first. */
  datatype Change = Fall | Stay | Rise

  function ChangeOf(a: nat, b: nat): Change {
    if b < a then Fall else if b > a then Rise else Stay
  }

  lemma {:induction false} LastMove(xs: seq<nat>, i: nat)
    requires i + 1 < |xs|
    ensures Moves(xs[..i + 2]) == Moves(xs[..i + 1]) + if xs[i + 1] == xs[i] then [] else [xs[i + 1] > xs[i]]
  {
    assert xs[..i + 2][..i + 1] == xs[..i + 1];
  }

  lemma OneMoreMove(moves: seq<bool>, rise: bool)
    ensures Turns(moves + [rise]) == Turns(moves) + if moves != [] && moves[|moves| - 1] != rise then 1 else 0
    ensures forall b :: b in moves + [rise] <==> b in moves || b == rise
  {
    assert (moves + [rise])[..|moves|] == moves;
  }

  /** What the scan keeps about the moves so far. */
  ghost predicate Scanned(moves: seq<bool>, improving: bool, worsening: bool, previous: Option<bool>, turns: nat) {
    && improving == (false in moves) && worsening == (true in moves) && turns == Turns(moves)
    && previous == if moves == [] then None else Some(moves[|moves| - 1])
  }

  lemma ScannedOneMore(
    moves: seq<bool>, improving: bool, worsening: bool, previous: Option<bool>, turns: nat, rise: bool)
    requires Scanned(moves, improving, worsening, previous, turns)
    ensures Scanned(moves + [rise], improving || !rise, worsening || rise, Some(rise),
                    if previous.Some? && previous.value != rise then turns + 1 else turns)
  {
    OneMoreMove(moves, rise);
  }

  method ScanChanges(blockers: seq<nat>) returns (hasImproving: bool, hasWorsening: bool, turns: nat)
    requires blockers != []
    ensures hasImproving == (false in Moves(blockers)) && hasWorsening == (true in Moves(blockers))
    ensures turns == Turns(Moves(blockers))
  {
    hasImproving, hasWorsening, turns := false, false, 0;
    var previous: Option<bool> := None;
    var i := 0;
    ghost var moves := Moves(blockers[..1]);
    while i + 1 < |blockers|
      invariant i < |blockers| && moves == Moves(blockers[..i + 1])
      invariant Scanned(moves, hasImproving, hasWorsening, previous, turns)
    {
      var change := ChangeOf(blockers[i], blockers[i + 1]);
      LastMove(blockers, i);
      if change != Stay {
        var rise := change == Rise;
        ScannedOneMore(moves, hasImproving, hasWorsening, previous, turns, rise);
        hasImproving := hasImproving || !rise;
        hasWorsening := hasWorsening || rise;
        if previous.Some? && previous.value != rise {
          turns := turns + 1;
        }
        previous := Some(rise);
        moves := moves + [rise];
      }
      i := i + 1;
    }
    assert blockers[..i + 1] == blockers;
  }

  method Diagnose(rounds: seq<Round>) returns (d: Option<Diagnostics>)
    ensures d == Diagnosis(rounds)
  {
    if rounds == [] {
      return None;
    }
    var terminal := if Blockers(rounds[|rounds| - 1]) == 0 then Zero else Nonzero;
    var blockers := BlockersOf(rounds);
    var hasImproving, hasWorsening, turns := ScanChanges(blockers);
    var direction :=
      if hasImproving then (if hasWorsening then Mixed else Improving)
      else if hasWorsening then Worsening
      else Level;
    var peaks := PeakValues(blockers);
    var confidence :=
      if forall k :: 0 <= k < |rounds| ==> HasLineage(rounds[k]) then AdvisoryLineageRecorded else LowNoLineage;
    d := Some(Diagnostics(if |rounds| < 3 then Insufficient else Sufficient,
                          terminal, direction, OscillationOf(turns), EnvelopeOf(peaks), confidence));
  }

  /** Turns need moves of both kinds. */
  lemma {:induction false} TurnsMeanMixed(moves: seq<bool>)
    ensures Turns(moves) > 0 <==> true in moves && false in moves
  {
    if |moves| >= 2 {
      var n := |moves|;
      TurnsMeanMixed(moves[..n - 1]);
      assert moves == moves[..n - 1] + [moves[n - 1]];
      assert moves[n - 2] in moves[..n - 1];
    }
  }

  /** What the dimensions of a diagnosis say about each other. */
  lemma DiagnosisIsCoherent(rounds: seq<Round>)
    requires rounds != []
    ensures var d := Diagnosis(rounds).value;
      && (d.envelope != Unknown ==> d.direction == Mixed && d.oscillation != Steady)
      && (d.oscillation == Alternating ==> |Peaks(BlockersOf(rounds))| >= 2)
      && (d.oscillation == Steady <==> d.direction != Mixed)
      && (d.SuggestsEntropyReview() <==> |rounds| >= 3 && Turns(Moves(BlockersOf(rounds))) != 1)
  {
    var xs := BlockersOf(rounds);
    TurnsAndPeaks(xs);
    TurnsMeanMixed(Moves(xs));
  }

  lemma {:induction false} RiseIsAMove(xs: seq<nat>)
    ensures HasRise(xs) <==> true in Moves(xs)
  {
    if |xs| >= 2 {
      var n := |xs|;
      var before := xs[..n - 1];
      RiseIsAMove(before);
      assert forall i :: 0 <= i < n - 1 ==> before[i] == xs[i];
    }
  }

  /** Verdict and diagnosis tell the same story about every ledger. */
  lemma VerdictAgreesWithDiagnosis(rounds: seq<Round>)
    requires rounds != []
    ensures var d := Diagnosis(rounds).value;
      var xs := BlockersOf(rounds);
      && (forall strict :: VerdictOf(xs, strict) == Converged <==> d.terminal == Zero)
      && (VerdictOf(xs, false) == Rebound <==> d.terminal == Nonzero && d.direction in {Worsening, Mixed})
      && (VerdictOf(xs, false) == Converging <==> d.terminal == Nonzero && d.direction in {Level, Improving})
      && (VerdictOf(xs, true) == Converging && |rounds| >= 2 ==> d.direction == Improving)
  {
    var xs := BlockersOf(rounds);
    VerdictMeaning(xs);
    RiseIsAMove(xs);
    if VerdictOf(xs, true) == Converging && |rounds| >= 2 {
      assert xs[1] < xs[0];
      assert !HasRise(xs);
      FallIsAMove(xs);
    }
  }

  lemma {:induction false} FallIsAMove(xs: seq<nat>)
    requires |xs| >= 2 && xs[1] < xs[0]
    ensures false in Moves(xs)
  {
    if |xs| > 2 {
      FallIsAMove(xs[..|xs| - 1]);
    } else {
      assert Moves(xs[..1]) == [];
    }
  }

  // ---------- plateaus do not matter ----------

  lemma {:induction false} DedupSkipsRepeats(a: seq<nat>, x: nat, b: seq<nat>)
    ensures Dedup(a + [x, x] + b) == Dedup(a + [x] + b)
  {
    if b == [] {
      assert a + [x, x] + b == (a + [x]) + [x];
      assert a + [x] + b == a + [x];
      DedupShape(a + [x]);
      assert ((a + [x]) + [x])[..|a| + 1] == a + [x];
    } else {
      var n := |b| - 1;
      DedupSkipsRepeats(a, x, b[..n]);
      assert (a + [x, x] + b)[..|a| + 2 + n] == a + [x, x] + b[..n];
      assert (a + [x] + b)[..|a| + 1 + n] == a + [x] + b[..n];
    }
  }

  /** Collapsing a repeated count changes neither terminal, direction, oscillation nor
      envelope, nor the lenient verdict. */
  lemma PlateausDoNotMatter(a: seq<nat>, x: nat, b: seq<nat>)
    ensures var long := a + [x, x] + b;
      var short := a + [x] + b;
      && long[|long| - 1] == short[|short| - 1]
      && Moves(long) == Moves(short)
      && Peaks(long) == Peaks(short)
      && VerdictOf(long, false) == VerdictOf(short, false)
  {
    var long := a + [x, x] + b;
    var short := a + [x] + b;
    DedupSkipsRepeats(a, x, b);
    DedupKeepsMoves(long);
    DedupKeepsMoves(short);
    VerdictMeaning(long);
    VerdictMeaning(short);
    RiseIsAMove(long);
    RiseIsAMove(short);
    StopKinds(long, false, 0);
    StopKinds(short, false, 0);
  }
}
