/**
  Value semantics of attempt results: the sentinels, the event formats and
  `best`, the best result of a sequence of attempts.
 */
module AttemptResults {

  /** An attempt that was not done (e.g. cut off by a cutoff). */
  const SKIPPED: int := 0
  /** Did Not Finish. */
  const DNF: int := -1
  /** Did Not Start. */
  const DNS: int := -2

  /**
    An attempt result: one of the three sentinels above or a positive value
    whose meaning depends on the event's format.
   */
  type AttemptResult = r: int | r >= -2

  /**
    How a positive attempt result is read: centiseconds, a move count
    (Fewest Moves) or a packed Multi-Blind code.
   */
  datatype Format = Time | Moves | MultiBlind

  /** A success: a time, a move count or a Multi-Blind code. */
  predicate IsComplete(r: int) {
    r > 0
  }

  /** An attempt that was made or due and failed: DNF or DNS. */
  predicate IsUnsuccessful(r: int) {
    r == DNF || r == DNS
  }

  /**
    The better of two attempt results as `best` ranks them: any success beats
    every sentinel, a DNF beats a DNS, and a skipped attempt loses to anything.
   */
  function BetterForBest(a: AttemptResult, b: AttemptResult): AttemptResult {
    if IsComplete(a) && IsComplete(b) then (if a <= b then a else b)
    else if IsComplete(a) then a
    else if IsComplete(b) then b
    else if a == SKIPPED then b
    else if b == SKIPPED then a
    else if a >= b then a
    else b
  }

  /**
    The best of a sequence of attempt results: 0 when nothing but skipped
    attempts, else the smallest success if there is one, else DNF if any DNF
    is present, else DNS.
   */
  function Best(rs: seq<AttemptResult>): (r: AttemptResult)
    ensures r == SKIPPED <==> forall i | 0 <= i < |rs| :: rs[i] == SKIPPED
    ensures IsComplete(r) <==> exists i | 0 <= i < |rs| :: IsComplete(rs[i])
    ensures IsComplete(r) ==> r in rs && forall i | 0 <= i < |rs| :: IsComplete(rs[i]) ==> r <= rs[i]
    ensures r == DNF <==> (forall i | 0 <= i < |rs| :: !IsComplete(rs[i])) && DNF in rs
    ensures r == DNS <==> (forall i | 0 <= i < |rs| :: !IsComplete(rs[i])) && DNF !in rs && DNS in rs
  {
    if |rs| == 0 then SKIPPED
    else
      var rest := Best(rs[1..]);
      assert forall i | 1 <= i < |rs| :: rs[i] == rs[1..][i - 1];
      BetterForBest(rs[0], rest)
  }

  /** Best splits over concatenation: the attempts can be ranked in any grouping. */
  lemma {:induction false} BestOfConcat(a: seq<AttemptResult>, b: seq<AttemptResult>)
    ensures Best(a + b) == BetterForBest(Best(a), Best(b))
  {
    if |a| == 0 {
      assert a + b == b;
    } else {
      assert (a + b)[1..] == a[1..] + b;
      BestOfConcat(a[1..], b);
    }
  }

  /**
    The largest successful value of a sequence, 0 when there is none (the
    worst single among the successes).
   */
  function LargestSuccess(rs: seq<AttemptResult>): (r: int)
    ensures r >= 0
    ensures r == 0 <==> forall i | 0 <= i < |rs| :: !IsComplete(rs[i])
    ensures IsComplete(r) ==> r in rs
    ensures forall i | 0 <= i < |rs| :: rs[i] <= r
  {
    if |rs| == 0 then 0
    else
      var rest := LargestSuccess(rs[1..]);
      assert forall i | 1 <= i < |rs| :: rs[i] == rs[1..][i - 1];
      if rs[0] > rest then rs[0] else rest
  }
}
