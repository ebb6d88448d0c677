/**
  The average of an event's attempts: 3 or 5 results, the best and the worst
  of 5 results discarded, and the format's rounding applied to the mean.
 */
module Averages {
  import opened Wrappers
  import opened AttemptResults
  import opened Rounding

  /** The two ways `average` refuses its arguments. */
  datatype AverageError = MissingEventId | InvalidNumberOfResults(given: nat)

  /**
    Ranking used when trimming: successes from fastest to slowest, then DNS,
    then DNF (a skipped attempt, which never reaches trimming, ranks last).
   */
  function Tier(r: AttemptResult): nat {
    if IsComplete(r) then 0 else if r == DNS then 1 else if r == DNF then 2 else 3
  }

  predicate RankedNoWorse(a: AttemptResult, b: AttemptResult) {
    Tier(a) < Tier(b) || (Tier(a) == Tier(b) && a <= b)
  }

  /** The trimming rank is a total order on attempt results. */
  lemma RankIsTotalOrder(a: AttemptResult, b: AttemptResult, c: AttemptResult)
    ensures RankedNoWorse(a, b) || RankedNoWorse(b, a)
    ensures RankedNoWorse(a, b) && RankedNoWorse(b, a) ==> a == b
    ensures RankedNoWorse(a, b) && RankedNoWorse(b, c) ==> RankedNoWorse(a, c)
  {
  }

  function Sum(s: seq<int>): int {
    if |s| == 0 then 0 else s[0] + Sum(s[1..])
  }

  lemma {:induction false} SumConcat(a: seq<int>, b: seq<int>)
    ensures Sum(a + b) == Sum(a) + Sum(b)
  {
    if |a| > 0 {
      assert (a + b)[1..] == a[1..] + b;
      SumConcat(a[1..], b);
    } else {
      assert a + b == b;
    }
  }

  /** The position of a best-ranked element. */
  function IndexOfBest(s: seq<AttemptResult>): (i: nat)
    requires |s| > 0
    ensures i < |s|
    ensures forall j | 0 <= j < |s| :: RankedNoWorse(s[i], s[j])
  {
    if |s| == 1 then 0
    else
      var k := IndexOfBest(s[1..]) + 1;
      assert forall j | 1 <= j < |s| :: s[j] == s[1..][j - 1];
      if RankedNoWorse(s[0], s[k]) then 0 else k
  }

  /** The position of a worst-ranked element. */
  function IndexOfWorst(s: seq<AttemptResult>): (i: nat)
    requires |s| > 0
    ensures i < |s|
    ensures forall j | 0 <= j < |s| :: RankedNoWorse(s[j], s[i])
  {
    if |s| == 1 then 0
    else
      var k := IndexOfWorst(s[1..]) + 1;
      assert forall j | 1 <= j < |s| :: s[j] == s[1..][j - 1];
      if RankedNoWorse(s[k], s[0]) then 0 else k
  }

  /** `s` without its element at position `i`. */
  function RemoveAt(s: seq<AttemptResult>, i: nat): (r: seq<AttemptResult>)
    requires i < |s|
    ensures |r| == |s| - 1
    ensures multiset(r) + multiset{s[i]} == multiset(s)
    ensures Sum(r) == Sum(s) - s[i]
    ensures forall x | x in r :: x in s
  {
    assert s == s[..i] + [s[i]] + s[i + 1..];
    SumConcat(s[..i] + [s[i]], s[i + 1..]);
    SumConcat(s[..i], [s[i]]);
    SumConcat(s[..i], s[i + 1..]);
    s[..i] + s[i + 1..]
  }

  /** A sequence split into its discarded best, the counting results and its discarded worst. */
  datatype Trimmed = Trimmed(best: AttemptResult, counting: seq<AttemptResult>, worst: AttemptResult)

  /**
    Discards exactly one best-ranked and one worst-ranked result; every
    result that still counts ranks between the two discarded ones.
   */
  function TrimBestAndWorst(s: seq<AttemptResult>): (t: Trimmed)
    requires |s| >= 2
    ensures |t.counting| == |s| - 2
    ensures multiset(s) == multiset(t.counting) + multiset{t.best, t.worst}
    ensures forall x | x in t.counting :: RankedNoWorse(t.best, x) && RankedNoWorse(x, t.worst)
    ensures forall x | x in s :: RankedNoWorse(t.best, x)
    ensures RankedNoWorse(t.best, t.worst)
    ensures Sum(t.counting) == Sum(s) - t.best - t.worst
  {
    var lo := IndexOfBest(s);
    var rest := RemoveAt(s, lo);
    var hi := IndexOfWorst(rest);
    var counting := RemoveAt(rest, hi);
    assert rest[hi] in s;
    Trimmed(s[lo], counting, rest[hi])
  }

  /** The results an average is taken over: the middle three of five, or all three. */
  function CountingResults(rs: seq<AttemptResult>): seq<AttemptResult>
    requires |rs| == 3 || |rs| == 5
  {
    if |rs| == 5 then TrimBestAndWorst(rs).counting else rs
  }

  /**
    The rounded mean of `n` successful results summing to `total`: for
    Fewest Moves, in hundredths of a move; for timed events, to the nearest
    centisecond and then to the nearest second from ten minutes on.
   */
  function Mean(format: Format, total: int, n: int): (r: int)
    requires format != MultiBlind
    requires 0 < n <= total
    ensures r > 0
    ensures format == Moves ==> 2 * n * r - n <= 200 * total < 2 * n * r + n
    ensures format == Time && r < TEN_MINUTES ==> 2 * n * r - n <= 2 * total < 2 * n * r + n
    ensures format == Time && r >= TEN_MINUTES ==>
      r % 100 == 0 && 2 * n * (r - 50) - n <= 2 * total < 2 * n * (r + 50) + n
    ensures format == Time && r >= TEN_MINUTES ==>
      exists m: int :: 2 * n * m - n <= 2 * total < 2 * n * m + n && r - 50 <= m < r + 50
    ensures format == Time && r >= TEN_MINUTES ==> 2 * total >= 2 * n * TEN_MINUTES - n
  {
    match format
    case Moves => RoundHalfUp(total * 100, n)
    case Time =>
      var m := RoundHalfUp(total, n);
      var r := RoundOverTenMinutes(m);
      assert r >= TEN_MINUTES ==> m >= TEN_MINUTES && r - 50 <= m < r + 50;
      WithinHalfSecond(total, n, m, r);
      r
  }

  /**
    A value within 50 centiseconds of the nearest-centisecond mean `m` is
    within 50.5 of the exact mean, and a mean rounding to ten minutes or
    more is at least ten minutes less half a centisecond.
   */
  lemma WithinHalfSecond(total: int, n: int, m: int, r: int)
    requires n > 0 && 2 * n * m - n <= 2 * total < 2 * n * m + n
    requires r >= TEN_MINUTES ==> m >= TEN_MINUTES && r - 50 <= m < r + 50
    ensures r >= TEN_MINUTES ==> 2 * n * (r - 50) - n <= 2 * total < 2 * n * (r + 50) + n
    ensures r >= TEN_MINUTES ==> 2 * total >= 2 * n * TEN_MINUTES - n
  {
    if r >= TEN_MINUTES {
      MulMonotonic(2 * n, TEN_MINUTES, m);
      MulMonotonic(2 * n, r - 50, m);
      MulStrictlyMonotonic(2 * n, m, r + 50);
    }
  }

  lemma MulMonotonic(k: int, a: int, b: int)
    requires k > 0 && a <= b
    ensures k * a <= k * b
  {
  }

  lemma MulStrictlyMonotonic(k: int, a: int, b: int)
    requires k > 0 && a < b
    ensures k * a < k * b
  {
  }

  /**
    The average of an event's results. Fails without a format or with a
    number of results other than 3 or 5; Multi-Blind has no average (0); a
    skipped result makes the average skipped (0); a DNF or DNS among the
    counting results makes it a DNF.
   */
  function Average(rs: seq<AttemptResult>, eventFormat: Option<Format>): (r: Result<AttemptResult, AverageError>)
    ensures eventFormat.None? ==> r == Failure(MissingEventId)
    ensures eventFormat.Some? && |rs| != 3 && |rs| != 5 ==> r == Failure(InvalidNumberOfResults(|rs|))
    ensures r.Success? ==> eventFormat.Some? && (|rs| == 3 || |rs| == 5)
    ensures r.Success? && (eventFormat == Some(MultiBlind) || SKIPPED in rs) ==> r.value == SKIPPED
    ensures r.Success? && r.value == SKIPPED ==> eventFormat == Some(MultiBlind) || SKIPPED in rs
    ensures r.Success? ==> r.value != DNS
  {
    match eventFormat
    case None => Failure(MissingEventId)
    case Some(format) =>
      if |rs| != 3 && |rs| != 5 then Failure(InvalidNumberOfResults(|rs|))
      else if format == MultiBlind then Success(SKIPPED)
      else if SKIPPED in rs then Success(SKIPPED)
      else
        var counting := CountingResults(rs);
        if exists i | 0 <= i < |counting| :: !IsComplete(counting[i]) then Success(DNF)
        else
          SumOfSuccessesAtLeastCount(counting);
          Success(Mean(format, Sum(counting), |counting|))
  }

  /** 1 for an unsuccessful result, else 0. */
  function UnsuccessfulCount(r: AttemptResult): nat {
    if IsUnsuccessful(r) then 1 else 0
  }

  /** The number of unsuccessful results (DNF or DNS). */
  function Unsuccessful(s: seq<AttemptResult>): nat {
    if |s| == 0 then 0 else UnsuccessfulCount(s[0]) + Unsuccessful(s[1..])
  }

  /** The count depends only on how many DNFs and DNSs there are, not on their order. */
  lemma {:induction false} UnsuccessfulOfMultiset(s: seq<AttemptResult>)
    ensures Unsuccessful(s) == multiset(s)[DNF] + multiset(s)[DNS]
  {
    if |s| > 0 {
      assert s == [s[0]] + s[1..];
      assert multiset(s) == multiset{s[0]} + multiset(s[1..]);
      UnsuccessfulOfMultiset(s[1..]);
    }
  }

  lemma SumOfSuccessesAtLeastCount(s: seq<AttemptResult>)
    requires forall i | 0 <= i < |s| :: IsComplete(s[i])
    ensures Sum(s) >= |s|
  {
    if |s| > 0 {
      assert forall i | 0 <= i < |s[1..]| :: s[1..][i] == s[i + 1];
      SumOfSuccessesAtLeastCount(s[1..]);
    }
  }

  /** An unsuccessful result is present exactly when the count is positive. */
  lemma UnsuccessfulPresent(s: seq<AttemptResult>)
    requires SKIPPED !in s
    ensures (exists i | 0 <= i < |s| :: !IsComplete(s[i])) <==> Unsuccessful(s) > 0
  {
    UnsuccessfulOfMultiset(s);
    if exists i | 0 <= i < |s| :: !IsComplete(s[i]) {
      var i :| 0 <= i < |s| && !IsComplete(s[i]);
      assert s[i] in multiset(s);
    }
    if Unsuccessful(s) > 0 {
      if multiset(s)[DNF] > 0 {
        assert DNF in s;
      } else {
        assert DNS in s;
      }
    }
  }

  /** For a valid call, the average is decided by the counting results alone. */
  lemma AverageFromCounting(rs: seq<AttemptResult>, format: Format)
    requires (|rs| == 3 || |rs| == 5) && SKIPPED !in rs && format != MultiBlind
    ensures var c := CountingResults(rs);
      && SKIPPED !in c
      && (Unsuccessful(c) > 0 ==> Average(rs, Some(format)) == Success(DNF))
      && (Unsuccessful(c) == 0 ==> Sum(c) >= |c| > 0 && Average(rs, Some(format)) == Success(Mean(format, Sum(c), |c|)))
  {
    var c := CountingResults(rs);
    if |rs| == 5 {
      TrimmedKeepsUnsuccessful(rs);
    }
    UnsuccessfulPresent(c);
    if Unsuccessful(c) == 0 {
      SumOfSuccessesAtLeastCount(c);
    }
  }

  /**
    Average of three results: no trimming; a DNF as soon as one result is
    unsuccessful, else the rounded mean of all three.
   */
  lemma AverageOfThree(rs: seq<AttemptResult>, format: Format)
    requires |rs| == 3 && SKIPPED !in rs && format != MultiBlind
    ensures Unsuccessful(rs) >= 1 ==> Average(rs, Some(format)) == Success(DNF)
    ensures Unsuccessful(rs) == 0 ==> Sum(rs) >= 3 && Average(rs, Some(format)) == Success(Mean(format, Sum(rs), 3))
  {
    AverageFromCounting(rs, format);
  }

  /** The discarded best and worst of five are the given best and worst. */
  lemma TrimmedExtremes(rs: seq<AttemptResult>, lo: AttemptResult, hi: AttemptResult)
    requires |rs| >= 2
    requires lo in rs && forall x | x in rs :: RankedNoWorse(lo, x)
    requires hi in rs && forall x | x in rs :: RankedNoWorse(x, hi)
    ensures TrimBestAndWorst(rs).best == lo && TrimBestAndWorst(rs).worst == hi
  {
    var t := TrimBestAndWorst(rs);
    assert t.best in multiset(rs) && t.worst in multiset(rs);
    RankIsTotalOrder(t.best, lo, lo);
    assert hi in multiset(t.counting) + multiset{t.best, t.worst};
    if hi in t.counting {
      RankIsTotalOrder(hi, t.worst, hi);
    } else if hi != t.worst {
      RankIsTotalOrder(t.best, t.worst, hi);
    }
  }

  lemma UnsuccessfulSplit(s: seq<AttemptResult>, c: seq<AttemptResult>, a: AttemptResult, b: AttemptResult)
    requires multiset(s) == multiset(c) + multiset{a, b}
    ensures Unsuccessful(s) == Unsuccessful(c) + UnsuccessfulCount(a) + UnsuccessfulCount(b)
  {
    UnsuccessfulOfMultiset(s);
    UnsuccessfulOfMultiset(c);
    assert multiset(s)[DNF] == multiset(c)[DNF] + multiset{a, b}[DNF];
    assert multiset(s)[DNS] == multiset(c)[DNS] + multiset{a, b}[DNS];
  }

  /**
    After trimming five results with no skipped one, an unsuccessful result
    still counts exactly when there were at least two.
   */
  lemma TrimmedKeepsUnsuccessful(rs: seq<AttemptResult>)
    requires |rs| == 5 && SKIPPED !in rs
    ensures var c := TrimBestAndWorst(rs).counting;
      SKIPPED !in c && (Unsuccessful(c) > 0 <==> Unsuccessful(rs) >= 2)
  {
    var t := TrimBestAndWorst(rs);
    var c := t.counting;
    assert SKIPPED !in c by {
      forall x | x in c ensures x != SKIPPED {
        assert x in multiset(rs);
      }
    }
    assert t.best in multiset(rs) && t.worst in multiset(rs);
    UnsuccessfulSplit(rs, c, t.best, t.worst);
    UnsuccessfulPresent(c);
    if Unsuccessful(c) > 0 {
      var i :| 0 <= i < |c| && !IsComplete(c[i]);
      assert c[i] in c;
      assert RankedNoWorse(c[i], t.worst);
    }
    if Unsuccessful(rs) >= 2 && IsUnsuccessful(t.best) {
      assert c[0] in c;
      assert RankedNoWorse(t.best, c[0]);
      assert !IsComplete(c[0]);
    }
  }

  /** Average of five results in terms of the discarded best and worst. */
  lemma AverageOfFiveTrimmed(rs: seq<AttemptResult>, format: Format, lo: AttemptResult, hi: AttemptResult)
    requires |rs| == 5 && SKIPPED !in rs && format != MultiBlind
    requires TrimBestAndWorst(rs).best == lo && TrimBestAndWorst(rs).worst == hi
    ensures Unsuccessful(rs) >= 2 ==> Average(rs, Some(format)) == Success(DNF)
    ensures Unsuccessful(rs) < 2 ==>
      var total := Sum(rs) - lo - hi;
      total >= 3 && Average(rs, Some(format)) == Success(Mean(format, total, 3))
  {
    TrimmedKeepsUnsuccessful(rs);
    AverageFromCounting(rs, format);
  }

  /**
    Average of five results: a DNF exactly when at least two results are
    unsuccessful (one can be discarded as the worst); otherwise the rounded
    mean of the five without their best `lo` and their worst `hi`.
   */
  lemma AverageOfFive(rs: seq<AttemptResult>, format: Format, lo: AttemptResult, hi: AttemptResult)
    requires |rs| == 5 && SKIPPED !in rs && format != MultiBlind
    requires lo in rs && forall x | x in rs :: RankedNoWorse(lo, x)
    requires hi in rs && forall x | x in rs :: RankedNoWorse(x, hi)
    ensures Unsuccessful(rs) >= 2 ==> Average(rs, Some(format)) == Success(DNF)
    ensures Unsuccessful(rs) < 2 ==>
      var total := Sum(rs) - lo - hi;
      total >= 3 && Average(rs, Some(format)) == Success(Mean(format, total, 3))
  {
    TrimmedExtremes(rs, lo, hi);
    AverageOfFiveTrimmed(rs, format, lo, hi);
  }
}
