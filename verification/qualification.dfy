/**
  Round rules applied to a competitor's attempts before they are ranked: the
  cutoff (later attempts only for those who did well enough early) and the
  time limit (slow attempts become DNF).
 */
module Qualification {
  import opened Wrappers
  import opened AttemptResults

  /**
    A cutoff: one of the first `numberOfAttempts` results must be a success
    strictly better than `attemptResult`.
   */
  datatype Cutoff = Cutoff(numberOfAttempts: nat, attemptResult: int)

  /**
    A time limit in centiseconds. With no cumulative round ids it applies to
    each attempt on its own; otherwise to the running total of the round.
   */
  datatype TimeLimit = TimeLimit(centiseconds: int, cumulativeRoundIds: seq<string>)

  /** Whether one of the first `n` results is a success better than `threshold`. */
  function SuccessBelowWithin(rs: seq<AttemptResult>, n: nat, threshold: int): (b: bool)
    ensures b <==> exists i | 0 <= i < |rs| && i < n :: 0 < rs[i] < threshold
  {
    if |rs| == 0 || n == 0 then false
    else
      assert forall i | 1 <= i < |rs| :: rs[i] == rs[1..][i - 1];
      (0 < rs[0] < threshold) || SuccessBelowWithin(rs[1..], n - 1, threshold)
  }

  /**
    Whether the results meet the cutoff. Without a cutoff everyone does;
    equalling the cutoff is not enough, and results after the checked ones
    do not count.
   */
  function MeetsCutoff(rs: seq<AttemptResult>, cutoff: Option<Cutoff>): (b: bool)
    ensures cutoff.None? ==> b
    ensures cutoff.Some? ==>
      (b <==> exists i | 0 <= i < |rs| && i < cutoff.value.numberOfAttempts :: 0 < rs[i] < cutoff.value.attemptResult)
  {
    match cutoff
    case None => true
    case Some(c) => SuccessBelowWithin(rs, c.numberOfAttempts, c.attemptResult)
  }

  /** `rs` with every result from position `n` on replaced by a skip. */
  function SkipFrom(rs: seq<AttemptResult>, n: nat): (r: seq<AttemptResult>)
    ensures |r| == |rs|
    ensures forall i | 0 <= i < |rs| :: r[i] == (if i < n then rs[i] else SKIPPED)
  {
    if |rs| == 0 then []
    else
      var rest := SkipFrom(rs[1..], if n == 0 then 0 else n - 1);
      [if n == 0 then SKIPPED else rs[0]] + rest
  }

  /**
    Applies a cutoff: a competitor who does not meet it gets every later
    attempt skipped; otherwise the results are kept. The checked attempts
    are never touched.
   */
  function ApplyCutoff(rs: seq<AttemptResult>, cutoff: Cutoff): (r: seq<AttemptResult>)
    ensures |r| == |rs|
    ensures forall i | 0 <= i < |rs| && i < cutoff.numberOfAttempts :: r[i] == rs[i]
    ensures MeetsCutoff(rs, Some(cutoff)) ==> r == rs
    ensures !MeetsCutoff(rs, Some(cutoff)) ==>
      forall i | cutoff.numberOfAttempts <= i < |rs| :: r[i] == SKIPPED
  {
    if MeetsCutoff(rs, Some(cutoff)) then rs else SkipFrom(rs, cutoff.numberOfAttempts)
  }

  /** Applying a cutoff does not change whether it is met. */
  lemma ApplyCutoffKeepsVerdict(rs: seq<AttemptResult>, cutoff: Cutoff)
    ensures MeetsCutoff(ApplyCutoff(rs, cutoff), Some(cutoff)) == MeetsCutoff(rs, Some(cutoff))
  {
    var r := ApplyCutoff(rs, cutoff);
    if MeetsCutoff(rs, Some(cutoff)) {
      var i :| 0 <= i < |rs| && i < cutoff.numberOfAttempts && 0 < rs[i] < cutoff.attemptResult;
      assert r[i] == rs[i];
    }
  }

  /** Applying a cutoff twice is applying it once. */
  lemma ApplyCutoffIdempotent(rs: seq<AttemptResult>, cutoff: Cutoff)
    ensures ApplyCutoff(ApplyCutoff(rs, cutoff), cutoff) == ApplyCutoff(rs, cutoff)
  {
    ApplyCutoffKeepsVerdict(rs, cutoff);
    var r := ApplyCutoff(rs, cutoff);
    var rr := ApplyCutoff(r, cutoff);
    assert |rr| == |r|;
    assert forall i | 0 <= i < |r| :: rr[i] == r[i];
  }

  /** The sum of the successful results (sentinels count as nothing). */
  function SuccessSum(s: seq<AttemptResult>): int {
    if |s| == 0 then 0
    else SuccessSum(s[..|s| - 1]) + (if IsComplete(s[|s| - 1]) then s[|s| - 1] else 0)
  }

  lemma {:induction false} SuccessSumGrows(s: seq<AttemptResult>, i: nat, j: nat)
    requires i <= j <= |s|
    ensures 0 <= SuccessSum(s[..i]) <= SuccessSum(s[..j])
    decreases j
  {
    if j > 0 {
      assert s[..j][..j - 1] == s[..j - 1];
      if i < j {
        SuccessSumGrows(s, i, j - 1);
      } else {
        SuccessSumGrows(s, 0, j - 1);
      }
    } else {
      assert s[..i] == [];
    }
  }

  predicate IsCumulative(limit: TimeLimit) {
    |limit.cumulativeRoundIds| > 0
  }

  /**
    Whether the attempt at position `i` goes over the time limit: a success
    that reaches the limit by itself or, for a cumulative limit, together
    with all the successes before it.
   */
  predicate OverLimit(rs: seq<AttemptResult>, limit: TimeLimit, i: nat)
    requires i < |rs|
  {
    && IsComplete(rs[i])
    && if IsCumulative(limit) then SuccessSum(rs[..i + 1]) >= limit.centiseconds
       else rs[i] >= limit.centiseconds
  }

  /**
    Applies a time limit: every attempt over the limit becomes a DNF, every
    other result is kept.
   */
  method ApplyTimeLimit(rs: seq<AttemptResult>, limit: TimeLimit) returns (r: seq<AttemptResult>)
    ensures |r| == |rs|
    ensures forall i | 0 <= i < |rs| :: r[i] == (if OverLimit(rs, limit, i) then DNF else rs[i])
  {
    r := [];
    var total := 0;
    for i := 0 to |rs|
      invariant |r| == i
      invariant total == SuccessSum(rs[..i])
      invariant forall k | 0 <= k < i :: r[k] == (if OverLimit(rs, limit, k) then DNF else rs[k])
    {
      var v := rs[i];
      assert rs[..i + 1][..i] == rs[..i];
      if IsComplete(v) {
        total := total + v;
      }
      var over := IsComplete(v) && if !IsCumulative(limit) then v >= limit.centiseconds else total >= limit.centiseconds;
      r := r + [if over then DNF else v];
    }
  }

  /**
    Under a cumulative limit, once an attempt has run the total over the
    limit, every later success is over it too.
   */
  lemma CumulativeOverLimitPersists(rs: seq<AttemptResult>, limit: TimeLimit, i: nat, j: nat)
    requires IsCumulative(limit)
    requires i < j < |rs| && OverLimit(rs, limit, i) && IsComplete(rs[j])
    ensures OverLimit(rs, limit, j)
  {
    SuccessSumGrows(rs, i + 1, j + 1);
  }

  /**
    A cumulative limit is at least as strict as the same limit per attempt:
    an attempt over the per-attempt limit is over the cumulative one.
   */
  lemma CumulativeAtLeastAsStrict(rs: seq<AttemptResult>, centiseconds: int, roundIds: seq<string>, i: nat)
    requires |roundIds| > 0 && i < |rs|
    requires OverLimit(rs, TimeLimit(centiseconds, []), i)
    ensures OverLimit(rs, TimeLimit(centiseconds, roundIds), i)
  {
    SuccessSumGrows(rs, i, i);
    assert rs[..i + 1][..i] == rs[..i];
  }
}
