/** Vocabulary shared by the modules of this project. */
module Common {

  datatype Option<+T> = None | Some(value: T) {
    function GetOr(default: T): T {
      if Some? then value else default
    }
  }

  datatype Result<+T, +E> = Ok(value: T) | Err(error: E)

  /** The first position of a value, or the length when it is absent. */
  function FirstIndex<T(==)>(s: seq<T>, x: T): (at: nat)
    ensures at <= |s|
    ensures at < |s| ==> s[at] == x
    ensures forall i :: 0 <= i < at ==> s[i] != x
  {
    if s == [] || s[0] == x then 0 else 1 + FirstIndex(s[1..], x)
  }

  /** No value occurs twice. */
  ghost predicate Distinct<T(!new)>(s: seq<T>) {
    forall i, j :: 0 <= i < j < |s| ==> s[i] != s[j]
  }

  /** Indices that only move forward: every index occurs once, in order. */
  ghost predicate StrictlyIncreasing(s: seq<int>) {
    forall i, j :: 0 <= i < j < |s| ==> s[i] < s[j]
  }
}

/** Sums over a population, one member of which changes at a time. */
module Counting {

  function Sum(counts: seq<nat>): nat {
    if counts == [] then 0 else Sum(counts[..|counts| - 1]) + counts[|counts| - 1]
  }

  lemma {:induction false} SumUpdate(counts: seq<nat>, i: nat, count: nat)
    requires i < |counts|
    ensures Sum(counts[i := count]) == Sum(counts) - counts[i] + count
  {
    var n, after := |counts| - 1, counts[i := count];
    if i == n {
      assert after[..n] == counts[..n];
    } else {
      SumUpdate(counts[..n], i, count);
      assert after[..n] == counts[..n][i := count];
    }
  }

  lemma {:induction false} SumOfNothing(counts: seq<nat>)
    requires forall i :: 0 <= i < |counts| ==> counts[i] == 0
    ensures Sum(counts) == 0
  {
    if counts != [] {
      SumOfNothing(counts[..|counts| - 1]);
    }
  }

  lemma {:induction false} MemberOfSum(counts: seq<nat>, i: nat)
    requires i < |counts|
    ensures counts[i] <= Sum(counts)
  {
    if i < |counts| - 1 {
      MemberOfSum(counts[..|counts| - 1], i);
    }
  }

  /** A population that gains members and whose members only grow. */
  lemma {:induction false} SumGrows(before: seq<nat>, after: seq<nat>)
    requires |before| <= |after|
    requires forall i :: 0 <= i < |before| ==> before[i] <= after[i]
    ensures Sum(before) <= Sum(after)
    ensures (exists i :: 0 <= i < |before| && before[i] < after[i]) ==> Sum(before) < Sum(after)
  {
    if after != [] {
      var n := |after| - 1;
      if |before| < |after| {
        SumGrows(before, after[..n]);
      } else {
        SumGrows(before[..n], after[..n]);
      }
    }
  }
}
