/**
What it means that one list holds the members of another that satisfy a condition, all of
them, once for each place and in order: the places where the condition holds, in ascending
order, are where its members come from.

Lists that code builds by filtering, be it from the front or by appending, are related to
their origin by these two predicates and the lemmas on one more member.
*/
module Selections {
  ghost predicate Increasing(at: seq<nat>) {
    forall i, j :: 0 <= i < j < |at| ==> at[i] < at[j]
  }

  /** `part` is what `xs` holds at the positions `at`, taken in order. */
  ghost predicate IsAt<T>(part: seq<T>, xs: seq<T>, at: seq<nat>) {
    && |part| == |at| && Increasing(at)
    && forall i :: 0 <= i < |at| ==> at[i] < |xs| && part[i] == xs[at[i]]
  }

  ghost predicate AreWhere<T(!new)>(at: seq<nat>, xs: seq<T>, keep: T -> bool) {
    forall i: nat :: i in at <==> i < |xs| && keep(xs[i])
  }

  lemma OneMoreAt<T(!new)>(part: seq<T>, xs: seq<T>, at: seq<nat>, keep: T -> bool, x: T)
    requires IsAt(part, xs, at) && AreWhere(at, xs, keep)
    ensures IsAt(part, xs + [x], at) && (!keep(x) ==> AreWhere(at, xs + [x], keep))
    ensures keep(x) ==> IsAt(part + [x], xs + [x], at + [|xs|]) && AreWhere(at + [|xs|], xs + [x], keep)
  {
    assert forall i :: 0 <= i < |at| ==> at[i] in at;
  }

  /** The positions one further on. */
  function Shifted(at: seq<nat>): (r: seq<nat>)
    ensures |r| == |at| && forall i :: 0 <= i < |r| ==> r[i] == at[i] + 1
  {
    seq(|at|, i requires 0 <= i < |at| => at[i] + 1)
  }

  lemma ShiftedMembers(at: seq<nat>, i: nat)
    ensures i in Shifted(at) <==> i > 0 && i - 1 in at
  {
    if i > 0 && i - 1 in at {
      var k :| 0 <= k < |at| && at[k] == i - 1;
      assert Shifted(at)[k] == i;
    }
  }

  lemma OneMoreInFront<T(!new)>(x: T, part: seq<T>, xs: seq<T>, at: seq<nat>, keep: T -> bool)
    requires IsAt(part, xs, at) && AreWhere(at, xs, keep)
    ensures keep(x) ==> IsAt([x] + part, [x] + xs, [0] + Shifted(at)) && AreWhere([0] + Shifted(at), [x] + xs, keep)
    ensures !keep(x) ==> IsAt(part, [x] + xs, Shifted(at)) && AreWhere(Shifted(at), [x] + xs, keep)
  {
    forall i: nat
      ensures i in Shifted(at) <==> i > 0 && i - 1 in at
      ensures i in [0] + Shifted(at) <==> i == 0 || i - 1 in at
    {
      ShiftedMembers(at, i);
    }
  }

  /** The front of a selection ends at some place: it is all there is up to there. */
  lemma FrontIsAt<T(!new)>(part: seq<T>, xs: seq<T>, at: seq<nat>, n: nat)
    requires IsAt(part, xs, at) && n <= |part|
    ensures IsAt(part[..n], xs, at[..n])
    ensures forall i: nat :: i in at && i !in at[..n] ==> forall k :: 0 <= k < n ==> at[k] < i
  {
    assert forall k :: 0 <= k < n ==> at[..n][k] == at[k];
    forall i: nat | i in at && i !in at[..n]
      ensures forall k :: 0 <= k < n ==> at[k] < i
    {
      var j :| 0 <= j < |at| && at[j] == i;
    }
  }

  /** The values found before `n`, in order, and where; elsewhere nothing is found. */
  ghost predicate Gathered<T(!new)>(
    xs: seq<T>, at: seq<nat>, n: nat, found: (nat, T) -> bool, nothing: nat -> bool)
  {
    && |xs| == |at| && Increasing(at)
    && (forall k :: 0 <= k < |at| ==> at[k] < n && found(at[k], xs[k]))
    && forall i: nat :: i < n && i !in at ==> nothing(i)
  }

  lemma GatherOne<T(!new)>(xs: seq<T>, at: seq<nat>, n: nat, found: (nat, T) -> bool, nothing: nat -> bool, x: T)
    requires Gathered(xs, at, n, found, nothing) && found(n, x)
    ensures Gathered(xs + [x], at + [n], n + 1, found, nothing)
  {
    assert forall i :: i in at ==> i in at + [n];
    assert (at + [n])[|at|] == n;
  }

  lemma GatherNone<T(!new)>(xs: seq<T>, at: seq<nat>, n: nat, found: (nat, T) -> bool, nothing: nat -> bool)
    requires Gathered(xs, at, n, found, nothing) && nothing(n)
    ensures Gathered(xs, at, n + 1, found, nothing)
  {
  }
}
