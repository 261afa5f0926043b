/**
What the verdicts and the diagnosis of src/ledger.rs say about the counts of the rounds.
*/
module AnalysisMeaning {
  import opened Common
  import opened Selections
  import opened Text
  import opened TextMeaning
  import opened LedgerAnalysis

  // ---------- verdicts ----------

  /** A ledger has converged if its last round counts nothing, high or critical. */
  lemma ConvergedMeans(rounds: seq<Round>, strict: bool)
    ensures Evaluation(rounds, strict) == NoObservations <==> rounds == []
    ensures Diagnosis(rounds) == None <==> rounds == []
    ensures var n := |rounds|;
      Evaluation(rounds, strict) == Converged <==>
        n > 0 && rounds[n - 1].high == 0 && rounds[n - 1].critical == 0
    ensures var n := |rounds|;
      n > 0 ==>
        (Diagnosis(rounds).value.terminal == Zero <==> rounds[n - 1].high == 0 && rounds[n - 1].critical == 0)
  {
    VerdictMeaning(BlockersOf(rounds));
  }

  /** Each value is high plus critical of its round, but at most the largest 64-bit number. */
  predicate AreSums(xs: seq<nat>, rounds: seq<Round>) {
    && |xs| == |rounds|
    && forall i :: 0 <= i < |xs| ==>
         xs[i] == if rounds[i].high + rounds[i].critical <= 18446744073709551615
                  then rounds[i].high + rounds[i].critical else 18446744073709551615
  }

  lemma SumsAreBlockers(xs: seq<nat>, rounds: seq<Round>)
    requires AreSums(xs, rounds)
    ensures xs == BlockersOf(rounds)
  {
  }

  predicate RisesAt(xs: seq<nat>, i: int) {
    0 < i < |xs| && xs[i] > xs[i - 1]
  }

  predicate FallsAt(xs: seq<nat>, i: int) {
    0 < i < |xs| && xs[i] < xs[i - 1]
  }

  lemma RiseIsSomewhere(xs: seq<nat>)
    ensures HasRise(xs) <==> exists i :: RisesAt(xs, i)
  {
    if HasRise(xs) {
      var i :| 0 < i < |xs| && xs[i - 1] < xs[i];
      assert RisesAt(xs, i);
    }
  }

  /** Where the sums fit 64 bits, the lenient verdict of a ledger that does not end in zero
      is Rebound if some round counts more than the one before it, and else Converging. */
  lemma LenientVerdictMeans(rounds: seq<Round>)
    requires forall i :: 0 <= i < |rounds| ==> rounds[i].high + rounds[i].critical <= 18446744073709551615
    ensures var n := |rounds|;
      Evaluation(rounds, false) == Rebound <==>
        && n > 0 && rounds[n - 1].high + rounds[n - 1].critical != 0
        && exists i, j :: 0 <= i < j < n && j == i + 1
             && rounds[j].high + rounds[j].critical > rounds[i].high + rounds[i].critical
    ensures Evaluation(rounds, false) in {NoObservations, Converged, Rebound, Converging}
  {
    var xs := BlockersOf(rounds);
    assert forall i :: 0 <= i < |rounds| ==> xs[i] == rounds[i].high + rounds[i].critical;
    SaturatedVerdictMeans(xs, rounds);
    if i :| RisesAt(xs, i) {
      var j := i - 1;
      assert rounds[i].high + rounds[i].critical > rounds[j].high + rounds[j].critical;
    }
    if i, j :| 0 <= i < j < |rounds| && j == i + 1
               && rounds[j].high + rounds[j].critical > rounds[i].high + rounds[i].critical {
      assert RisesAt(xs, j);
    }
  }

  /** The same for all counts, whose sums stay at the largest 64-bit number. */
  lemma SaturatedVerdictMeans(xs: seq<nat>, rounds: seq<Round>)
    requires AreSums(xs, rounds)
    ensures Evaluation(rounds, false) == Rebound <==>
      xs != [] && xs[|xs| - 1] != 0 && exists i :: RisesAt(xs, i)
    ensures Evaluation(rounds, false) in {NoObservations, Converged, Rebound, Converging}
  {
    SumsAreBlockers(xs, rounds);
    VerdictMeaning(xs);
    RiseIsSomewhere(xs);
    StopKinds(xs, false, 0);
  }

  /** The counts fall up to `i`, where one above zero stays. */
  predicate StallsAt(xs: seq<nat>, i: int) {
    0 < i < |xs| && xs[i] == xs[i - 1] && xs[i] != 0 && forall j :: 0 < j < i ==> FallsAt(xs, j)
  }

  lemma StallIsFirst(xs: seq<nat>, i: nat)
    ensures StallsAt(xs, i) <==> FirstNotFalling(xs, i) && xs[i - 1] == xs[i] != 0
  {
    if StallsAt(xs, i) {
      forall j | 0 < j < i
        ensures xs[j] < xs[j - 1]
      {
        assert FallsAt(xs, j);
      }
    }
  }

  lemma StallDecides(xs: seq<nat>)
    ensures VerdictOf(xs, true) == Stalled <==> xs != [] && xs[|xs| - 1] != 0 && exists i :: StallsAt(xs, i)
  {
    StrictVerdictMeaning(xs);
    if i :| StallsAt(xs, i) {
      StallIsFirst(xs, i);
    }
    if k: nat :| FirstNotFalling(xs, k) && xs[k - 1] == xs[k] != 0 {
      StallIsFirst(xs, k);
    }
  }

  /** A strict verdict needs every round to count less than the one before it. Where one does
      not, the first such round decides. */
  lemma StrictVerdictMeans(xs: seq<nat>, rounds: seq<Round>)
    requires AreSums(xs, rounds) && xs != [] && xs[|xs| - 1] != 0
    ensures Evaluation(rounds, true) == Converging <==> forall i :: 0 < i < |xs| ==> FallsAt(xs, i)
    ensures Evaluation(rounds, true) == Stalled <==> exists i :: StallsAt(xs, i)
    ensures Evaluation(rounds, true) in {Converging, Stalled, Rebound}
  {
    SumsAreBlockers(xs, rounds);
    StallDecides(xs);
    StopKinds(xs, true, 0);
    FallsMean(xs);
  }

  lemma FallsMean(xs: seq<nat>)
    requires xs != [] && xs[|xs| - 1] != 0
    ensures VerdictOf(xs, true) == Converging <==> forall i :: 0 < i < |xs| ==> FallsAt(xs, i)
  {
    VerdictMeaning(xs);
    if forall i :: 0 < i < |xs| ==> FallsAt(xs, i) {
      forall i | 0 < i < |xs|
        ensures xs[i] < xs[i - 1]
      {
        assert FallsAt(xs, i);
      }
    }
  }

  // ---------- moves ----------

  /** A rise, a fall and a rise in this order, or a fall, a rise and a fall. */
  ghost predicate TurnsTwice(xs: seq<nat>) {
    || (exists i, j, k :: i < j < k && RisesAt(xs, i) && FallsAt(xs, j) && RisesAt(xs, k))
    || (exists i, j, k :: i < j < k && FallsAt(xs, i) && RisesAt(xs, j) && FallsAt(xs, k))
  }

  /** The value at `i` differs from the one before it, upwards or downwards. */
  predicate MovesTo(xs: seq<nat>, i: nat, rise: bool) {
    if rise then RisesAt(xs, i) else FallsAt(xs, i)
  }

  /** The places where the value changes, in order, with the direction of each change. */
  ghost predicate AreMoves(at: seq<nat>, moves: seq<bool>, xs: seq<nat>) {
    && |at| == |moves| && Increasing(at)
    && (forall k :: 0 <= k < |at| ==> at[k] < |xs| && MovesTo(xs, at[k], moves[k]))
    && forall i: nat, rise :: MovesTo(xs, i, rise) ==> i in at
  }

  lemma MovesBefore(xs: seq<nat>, x: nat, i: nat, rise: bool)
    requires i < |xs|
    ensures MovesTo(xs + [x], i, rise) == MovesTo(xs, i, rise)
  {
  }

  lemma MoreMoves(at: seq<nat>, moves: seq<bool>, xs: seq<nat>, x: nat)
    requires AreMoves(at, moves, xs) && xs != []
    ensures var last := xs[|xs| - 1];
      if last == x then AreMoves(at, moves, xs + [x]) else AreMoves(at + [|xs|], moves + [x > last], xs + [x])
  {
    forall i: nat, rise | i < |xs|
      ensures MovesTo(xs + [x], i, rise) == MovesTo(xs, i, rise)
    {
      MovesBefore(xs, x, i, rise);
    }
    assert forall k :: 0 <= k < |at| ==> (at + [|xs|])[k] == at[k] && (moves + [x > xs[|xs| - 1]])[k] == moves[k];
    assert forall i :: i in at ==> i in at + [|xs|];
    assert |xs| in at + [|xs|];
  }

  lemma {:induction false} MovesAt(xs: seq<nat>) returns (at: seq<nat>)
    ensures AreMoves(at, Moves(xs), xs)
  {
    at := [];
    if |xs| >= 2 {
      var front, x := xs[..|xs| - 1], xs[|xs| - 1];
      at := MovesAt(front);
      MoreMoves(at, Moves(front), front, x);
      assert front + [x] == xs;
      if x != front[|front| - 1] {
        at := at + [|front|];
      }
    }
  }

  /** Two turns take three moves, of which the middle one goes the other way. */
  lemma {:induction false} TwoTurns(moves: seq<bool>)
    ensures Turns(moves) >= 2 <==>
      exists i, j, k :: 0 <= i < j < k < |moves| && moves[i] != moves[j] && moves[j] != moves[k]
  {
    if |moves| >= 2 {
      var n := |moves|;
      var front := moves[..n - 1];
      TwoTurns(front);
      TurnsMeanMixed(front);
      assert forall i :: 0 <= i < n - 1 ==> moves[i] == front[i];
      if Turns(front) >= 2 {
        var i, j, k :| 0 <= i < j < k < |front| && front[i] != front[j] && front[j] != front[k];
        assert moves[i] != moves[j] && moves[j] != moves[k];
      } else if Turns(front) == 1 && moves[n - 1] != moves[n - 2] {
        var i :| 0 <= i < n - 1 && front[i] == moves[n - 1];
        assert i < n - 2 && moves[i] != moves[n - 2] && moves[n - 2] != moves[n - 1];
      } else {
        NoSecondTurn(moves);
      }
    }
  }

  /** Where one turn is all there is, a last move in the same direction adds none. */
  lemma NoSecondTurn(moves: seq<bool>)
    requires |moves| >= 2 && Turns(moves) < 2
    requires var front := moves[..|moves| - 1];
      !exists i, j, k :: 0 <= i < j < k < |front| && front[i] != front[j] && front[j] != front[k]
    ensures !exists i, j, k :: 0 <= i < j < k < |moves| && moves[i] != moves[j] && moves[j] != moves[k]
  {
    var n := |moves|;
    var front := moves[..n - 1];
    forall i, j, k | 0 <= i < j < k < n && moves[i] != moves[j]
      ensures moves[j] == moves[k]
    {
      assert moves[i] == front[i] && moves[j] == front[j];
      if k == n - 1 {
        TurnsMeanMixed(front);
        assert front[i] in front && front[j] in front;
        assert moves[n - 2] == moves[n - 1];
        assert j < n - 2 ==> front[j] == front[n - 2];
      } else {
        assert moves[k] == front[k];
      }
    }
  }

  /** Direction and oscillation, told by the places where the counts rise and fall. */
  lemma MovesMean(xs: seq<nat>, rounds: seq<Round>)
    requires AreSums(xs, rounds) && xs != []
    ensures var d := Diagnosis(rounds).value;
      var rises, falls := exists i :: RisesAt(xs, i), exists i :: FallsAt(xs, i);
      && (d.direction == Improving <==> falls && !rises)
      && (d.direction == Worsening <==> rises && !falls)
      && (d.direction == Mixed <==> rises && falls)
      && (d.direction == Level <==> !rises && !falls)
      && (d.oscillation == Alternating <==> TurnsTwice(xs))
      && (d.oscillation == SingleRebound <==> rises && falls && !TurnsTwice(xs))
      && (d.oscillation == Steady <==> !(rises && falls))
      && (d.SuggestsEntropyReview() <==> |rounds| >= 3 && !(rises && falls && !TurnsTwice(xs)))
  {
    SumsAreBlockers(xs, rounds);
    DiagnosisIsCoherent(rounds);
    var moves := Moves(xs);
    RisesAndFalls(xs);
    TurnsMeanMixed(moves);
    TwoTurns(moves);
    Alternations(xs);
  }

  lemma RisesAndFalls(xs: seq<nat>)
    ensures true in Moves(xs) <==> exists i :: RisesAt(xs, i)
    ensures false in Moves(xs) <==> exists i :: FallsAt(xs, i)
  {
    var at := MovesAt(xs);
    var moves := Moves(xs);
    if i :| RisesAt(xs, i) {
      var k := MoveAt(xs, at, i, true);
    }
    if i :| FallsAt(xs, i) {
      var k := MoveAt(xs, at, i, false);
    }
    if true in moves {
      var k :| 0 <= k < |moves| && moves[k];
      assert MovesTo(xs, at[k], moves[k]);
    }
    if false in moves {
      var k :| 0 <= k < |moves| && !moves[k];
      assert MovesTo(xs, at[k], moves[k]);
    }
  }

  lemma MoveAt(xs: seq<nat>, at: seq<nat>, i: nat, rise: bool) returns (k: nat)
    requires AreMoves(at, Moves(xs), xs) && MovesTo(xs, i, rise)
    ensures k < |at| && at[k] == i && Moves(xs)[k] == rise
  {
    k :| 0 <= k < |at| && at[k] == i;
    assert MovesTo(xs, at[k], Moves(xs)[k]);
  }

  /** Three moves in alternating directions, at their places. */
  lemma PlacesOfMoves(xs: seq<nat>, at: seq<nat>, i: nat, j: nat, k: nat)
    requires AreMoves(at, Moves(xs), xs) && i < j < k < |at|
    requires Moves(xs)[i] != Moves(xs)[j] && Moves(xs)[j] != Moves(xs)[k]
    ensures TurnsTwice(xs)
  {
    var moves := Moves(xs);
    assert at[i] < at[j] < at[k];
    assert MovesTo(xs, at[i], moves[i]) && MovesTo(xs, at[j], moves[j]) && MovesTo(xs, at[k], moves[k]);
    if moves[i] {
      assert RisesAt(xs, at[i]) && FallsAt(xs, at[j]) && RisesAt(xs, at[k]);
    } else {
      assert FallsAt(xs, at[i]) && RisesAt(xs, at[j]) && FallsAt(xs, at[k]);
    }
  }

  lemma MovesAtPlaces(xs: seq<nat>, at: seq<nat>, i: nat, j: nat, k: nat, rise: bool) returns (a: nat, b: nat, c: nat)
    requires AreMoves(at, Moves(xs), xs) && i < j < k
    requires MovesTo(xs, i, rise) && MovesTo(xs, j, !rise) && MovesTo(xs, k, rise)
    ensures a < b < c < |at| && Moves(xs)[a] == Moves(xs)[c] == rise && Moves(xs)[b] == !rise
  {
    a := MoveAt(xs, at, i, rise);
    b := MoveAt(xs, at, j, !rise);
    c := MoveAt(xs, at, k, rise);
  }

  lemma Alternations(xs: seq<nat>)
    ensures var moves := Moves(xs);
      (exists i, j, k :: 0 <= i < j < k < |moves| && moves[i] != moves[j] && moves[j] != moves[k]) <==> TurnsTwice(xs)
  {
    var at := MovesAt(xs);
    var moves := Moves(xs);
    if i, j, k :| 0 <= i < j < k < |moves| && moves[i] != moves[j] && moves[j] != moves[k] {
      PlacesOfMoves(xs, at, i, j, k);
    }
    if i, j, k :| i < j < k && RisesAt(xs, i) && FallsAt(xs, j) && RisesAt(xs, k) {
      var a, b, c := MovesAtPlaces(xs, at, i, j, k, true);
      assert moves[a] != moves[b] && moves[b] != moves[c];
    }
    if i, j, k :| i < j < k && FallsAt(xs, i) && RisesAt(xs, j) && FallsAt(xs, k) {
      var a, b, c := MovesAtPlaces(xs, at, i, j, k, false);
      assert moves[a] != moves[b] && moves[b] != moves[c];
    }
  }

  // ---------- peaks ----------

  /** The values stay the same from `p` to `q`. */
  ghost predicate LevelFromTo(xs: seq<nat>, p: int, q: int) {
    0 <= p <= q < |xs| && forall j :: p <= j <= q ==> xs[j] == xs[p]
  }

  /** A plateau that starts at `p` is higher than what comes before it and after it. */
  ghost predicate PeakStartsAt(xs: seq<nat>, p: int) {
    && 0 <= p < |xs| && (p == 0 || xs[p - 1] < xs[p])
    && exists q :: LevelFromTo(xs, p, q) && (q + 1 == |xs| || xs[q + 1] < xs[p])
  }

  /** From `p` on the values stay the same, and they change at `end` or are over there. */
  ghost predicate PlateauIs(xs: seq<nat>, p: int, end: int) {
    LevelFromTo(xs, p, end - 1) && (end < |xs| ==> xs[end] != xs[p])
  }

  /** Where the `k`-th plateau starts. Behind the last one that is the end. */
  function StartOf(at: seq<nat>, k: nat, n: nat): nat
    requires k <= |at|
  {
    if k == |at| then n else at[k]
  }

  ghost predicate PlateauNumber(at: seq<nat>, xs: seq<nat>, k: nat) {
    k < |at| && PlateauIs(xs, at[k], StartOf(at, k + 1, |xs|))
  }

  /** The places where a plateau starts, in order. */
  ghost predicate AreStarts(at: seq<nat>, d: seq<nat>, xs: seq<nat>) {
    && IsAt(d, xs, at) && StartOf(at, 0, |xs|) == 0
    && forall k: nat :: k < |at| ==> PlateauNumber(at, xs, k)
  }

  lemma PlateauBefore(xs: seq<nat>, x: nat, p: int, end: int)
    requires PlateauIs(xs, p, end)
    ensures end < |xs| || xs[p] != x ==> PlateauIs(xs + [x], p, end)
    ensures end == |xs| && xs[p] == x ==> PlateauIs(xs + [x], p, end + 1)
  {
  }

  lemma LevelInside(xs: seq<nat>, p: int, end: int, i: int)
    requires PlateauIs(xs, p, end) && p <= i < end
    ensures xs[i] == xs[p] && (i > p ==> xs[i - 1] == xs[i])
  {
  }

  lemma LongerAt(part: seq<nat>, xs: seq<nat>, at: seq<nat>, x: nat)
    requires IsAt(part, xs, at)
    ensures IsAt(part, xs + [x], at) && IsAt(part + [x], xs + [x], at + [|xs|])
  {
  }

  lemma NumberBefore(at: seq<nat>, xs: seq<nat>, x: nat, k: nat)
    requires xs != [] && PlateauNumber(at, xs, k) && (k + 1 < |at| ==> at[k + 1] < |xs|)
    ensures if xs[|xs| - 1] == x then PlateauNumber(at, xs + [x], k) else PlateauNumber(at + [|xs|], xs + [x], k)
  {
    var end := StartOf(at, k + 1, |xs|);
    PlateauBefore(xs, x, at[k], end);
    if k + 1 == |at| {
      LevelInside(xs, at[k], end, |xs| - 1);
    }
  }

  lemma MoreStarts(at: seq<nat>, d: seq<nat>, xs: seq<nat>, x: nat)
    requires AreStarts(at, d, xs)
    ensures if xs != [] && xs[|xs| - 1] == x then AreStarts(at, d, xs + [x])
            else AreStarts(at + [|xs|], d + [x], xs + [x])
  {
    LongerAt(d, xs, at, x);
    var same := xs != [] && xs[|xs| - 1] == x;
    forall k: nat | k < |at|
      ensures if same then PlateauNumber(at, xs + [x], k) else PlateauNumber(at + [|xs|], xs + [x], k)
    {
      assert PlateauNumber(at, xs, k);
      NumberBefore(at, xs, x, k);
    }
    if !same {
      assert LevelFromTo(xs + [x], |xs|, |xs|);
      assert PlateauNumber(at + [|xs|], xs + [x], |at|);
    }
  }

  lemma DedupOneMore(xs: seq<nat>, x: nat)
    ensures Dedup(xs + [x]) == if xs != [] && xs[|xs| - 1] == x then Dedup(xs) else Dedup(xs) + [x]
  {
    DedupShape(xs);
    assert (xs + [x])[..|xs|] == xs;
  }

  lemma {:induction false} StartsAt(xs: seq<nat>) returns (at: seq<nat>)
    ensures AreStarts(at, Dedup(xs), xs)
  {
    at := [];
    if xs != [] {
      var front, x := xs[..|xs| - 1], xs[|xs| - 1];
      at := StartsAt(front);
      DedupOneMore(front, x);
      MoreStarts(at, Dedup(front), front, x);
      assert front + [x] == xs;
      if front == [] || front[|front| - 1] != x {
        at := at + [|front|];
      }
    }
  }

  /** A plateau that something lower or the end follows ends where the next one starts. */
  lemma PlateauEnds(xs: seq<nat>, p: int, q: int, end: int)
    requires PlateauIs(xs, p, end) && LevelFromTo(xs, p, q)
    requires q + 1 == |xs| || xs[q + 1] < xs[p]
    ensures q + 1 == end
  {
  }

  lemma PeakOfPlateau(xs: seq<nat>, p: int, end: int)
    requires PlateauIs(xs, p, end)
    ensures PeakStartsAt(xs, p) <==> (p == 0 || xs[p - 1] < xs[p]) && (end == |xs| || xs[end] < xs[p])
  {
    if PeakStartsAt(xs, p) {
      var q :| LevelFromTo(xs, p, q) && (q + 1 == |xs| || xs[q + 1] < xs[p]);
      PlateauEnds(xs, p, q, end);
    } else if end == |xs| || xs[end] < xs[p] {
      assert LevelFromTo(xs, p, end - 1) && (end - 1 + 1 == |xs| || xs[end - 1 + 1] < xs[p]);
    }
  }

  lemma PeakOfStart(xs: seq<nat>, d: seq<nat>, at: seq<nat>, k: nat, p: nat)
    requires AreStarts(at, d, xs) && k < |at| && at[k] <= p < StartOf(at, k + 1, |xs|)
    ensures PeakStartsAt(xs, p) <==> p == at[k] && IsPeak(d, k)
  {
    var end := StartOf(at, k + 1, |xs|);
    assert PlateauNumber(at, xs, k);
    LevelInside(xs, at[k], end, p);
    PeakOfPlateau(xs, at[k], end);
    if k > 0 {
      assert PlateauNumber(at, xs, k - 1);
      LevelInside(xs, at[k - 1], at[k], at[k] - 1);
    }
  }

  ghost predicate ArePeaksBefore(peaks: seq<nat>, part: seq<nat>, xs: seq<nat>, end: nat) {
    && IsAt(part, xs, peaks)
    && forall p: nat :: p in peaks <==> p < end && PeakStartsAt(xs, p)
  }

  lemma OnePlateauMore(peaks: seq<nat>, part: seq<nat>, xs: seq<nat>, p: nat, end: nat, isPeak: bool)
    requires ArePeaksBefore(peaks, part, xs, p) && p < end <= |xs|
    requires forall i: nat :: p <= i < end ==> (PeakStartsAt(xs, i) <==> i == p && isPeak)
    ensures if isPeak then ArePeaksBefore(peaks + [p], part + [xs[p]], xs, end)
            else ArePeaksBefore(peaks, part, xs, end)
  {
    assert forall i :: 0 <= i < |peaks| ==> peaks[i] in peaks;
    if isPeak {
      forall i: nat
        ensures i in peaks + [p] <==> i < end && PeakStartsAt(xs, i)
      {
        assert i in peaks + [p] <==> i in peaks || i == p;
      }
    }
  }

  lemma PeaksOneMore(d: seq<nat>, n: nat)
    requires 0 < n <= |d|
    ensures PeaksUpTo(d, n) == if IsPeak(d, n - 1) then PeaksUpTo(d, n - 1) + [d[n - 1]] else PeaksUpTo(d, n - 1)
  {
  }

  lemma {:induction false} PeaksOfStarts(xs: seq<nat>, d: seq<nat>, at: seq<nat>, n: nat) returns (peaks: seq<nat>)
    requires AreStarts(at, d, xs) && n <= |at|
    ensures ArePeaksBefore(peaks, PeaksUpTo(d, n), xs, StartOf(at, n, |xs|))
  {
    peaks := [];
    if n > 0 {
      var p, end := at[n - 1], StartOf(at, n, |xs|);
      peaks := PeaksOfStarts(xs, d, at, n - 1);
      forall i: nat | p <= i < end
        ensures PeakStartsAt(xs, i) <==> i == p && IsPeak(d, n - 1)
      {
        PeakOfStart(xs, d, at, n - 1, i);
      }
      assert PlateauNumber(at, xs, n - 1);
      OnePlateauMore(peaks, PeaksUpTo(d, n - 1), xs, p, end, IsPeak(d, n - 1));
      PeaksOneMore(d, n);
      if IsPeak(d, n - 1) {
        peaks := peaks + [p];
      }
    }
  }

  /** The peaks are the values of the plateaus that are higher than their neighbours, one for
      each such plateau and in order. */
  lemma PeaksMean(xs: seq<nat>) returns (at: seq<nat>)
    ensures |Peaks(xs)| == |at| && Increasing(at)
    ensures forall k :: 0 <= k < |at| ==> at[k] < |xs| && Peaks(xs)[k] == xs[at[k]]
    ensures forall p: nat :: p in at <==> PeakStartsAt(xs, p)
  {
    var starts := StartsAt(xs);
    at := PeaksOfStarts(xs, Dedup(xs), starts, |starts|);
  }

  // ---------- envelope ----------

  lemma {:induction false} FallsThroughout(ps: seq<nat>, i: nat, j: nat)
    requires i < j < |ps| && forall k :: 0 <= k < |ps| - 1 ==> ps[k + 1] < ps[k]
    ensures ps[j] < ps[i]
  {
    if i + 1 < j {
      FallsThroughout(ps, i, j - 1);
    }
    assert ps[j - 1 + 1] < ps[j - 1];
  }

  lemma {:induction false} RisesThroughout(ps: seq<nat>, i: nat, j: nat)
    requires i < j < |ps| && forall k :: 0 <= k < |ps| - 1 ==> ps[k + 1] > ps[k]
    ensures ps[j] > ps[i]
  {
    if i + 1 < j {
      RisesThroughout(ps, i, j - 1);
    }
    assert ps[j - 1 + 1] > ps[j - 1];
  }

  lemma {:induction false} LevelThroughout(ps: seq<nat>, i: nat, j: nat)
    requires i < j < |ps| && forall k :: 0 <= k < |ps| - 1 ==> ps[k + 1] == ps[k]
    ensures ps[j] == ps[i]
  {
    if i + 1 < j {
      LevelThroughout(ps, i, j - 1);
    }
    assert ps[j - 1 + 1] == ps[j - 1];
  }

  /** How a later peak compares with an earlier one. */
  predicate Follows(e: Envelope, earlier: nat, later: nat) {
    match e
    case Shrinking => later < earlier
    case Expanding => later > earlier
    case Flat => later == earlier
    case Unknown => true
  }

  lemma EnvelopeIs(ps: seq<nat>, e: Envelope)
    requires e != Unknown
    ensures EnvelopeOf(ps) == e <==> |ps| >= 2 && forall i, j :: 0 <= i < j < |ps| ==> Follows(e, ps[i], ps[j])
  {
    if |ps| >= 2 {
      var k := 0;
      assert EnvelopeOf(ps) != Unknown ==> Follows(EnvelopeOf(ps), ps[k], ps[k + 1]);
    }
    if EnvelopeOf(ps) == e {
      forall i: nat, j: nat | i < j < |ps|
        ensures Follows(e, ps[i], ps[j])
      {
        match e {
          case Shrinking => FallsThroughout(ps, i, j);
          case Expanding => RisesThroughout(ps, i, j);
          case Flat => LevelThroughout(ps, i, j);
        }
      }
    }
  }

  /** Two peaks in order. */
  ghost predicate AreTwoPeaks(xs: seq<nat>, p: int, q: int) {
    p < q && PeakStartsAt(xs, p) && PeakStartsAt(xs, q)
  }

  /** The envelope compares any two peaks: there are two, and the later one is always lower,
      always higher or always the same. */
  lemma EnvelopeMeans(xs: seq<nat>, rounds: seq<Round>, e: Envelope)
    requires AreSums(xs, rounds) && xs != [] && e != Unknown
    ensures Diagnosis(rounds).value.envelope == e <==>
      && (exists p, q :: AreTwoPeaks(xs, p, q))
      && forall p, q :: AreTwoPeaks(xs, p, q) ==> Follows(e, xs[p], xs[q])
  {
    SumsAreBlockers(xs, rounds);
    var at := PeaksMean(xs);
    var ps := Peaks(xs);
    EnvelopeIs(ps, e);
    forall i, j | 0 <= i < j < |ps|
      ensures AreTwoPeaks(xs, at[i], at[j]) && ps[i] == xs[at[i]] && ps[j] == xs[at[j]]
    {
      assert at[i] in at && at[j] in at;
    }
    forall p, q | AreTwoPeaks(xs, p, q)
      ensures exists i, j :: 0 <= i < j < |ps| && at[i] == p && at[j] == q
    {
      assert p in at && q in at;
      var i, j :| 0 <= i < |at| && 0 <= j < |at| && at[i] == p && at[j] == q;
    }
  }

  // ---------- sample and lineage ----------

  predicate NotAllWhite(cell: Option<string>) {
    cell.Some? && exists i :: 0 <= i < |cell.value| && !IsWhite(cell.value[i])
  }

  /** Three rounds are enough of a sample. The lineage is recorded if every round names
      auditors and coverage by more than white space. */
  lemma SampleAndLineageMean(rounds: seq<Round>)
    requires rounds != []
    ensures var d := Diagnosis(rounds).value;
      && (d.sampleSufficiency == Sufficient <==> |rounds| >= 3)
      && (d.confidence == AdvisoryLineageRecorded <==>
            forall i :: 0 <= i < |rounds| ==> NotAllWhite(rounds[i].auditors) && NotAllWhite(rounds[i].coverage))
  {
    forall i | 0 <= i < |rounds|
      ensures HasLineage(rounds[i]) <==> NotAllWhite(rounds[i].auditors) && NotAllWhite(rounds[i].coverage)
    {
      NonBlankMeans(rounds[i].auditors);
      NonBlankMeans(rounds[i].coverage);
    }
  }

  lemma NonBlankMeans(cell: Option<string>)
    ensures NonBlank(cell) <==> NotAllWhite(cell)
  {
    if cell.Some? {
      BlankMeans(cell.value);
    }
  }
}
