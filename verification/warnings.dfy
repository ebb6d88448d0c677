/**
  Warnings shown to the person entering results when a sequence of attempts
  looks mistyped. The warning is a kind plus the attempt or values it names;
  the English wording is left to the user interface.
 */
module Warnings {
  import opened Wrappers
  import opened AttemptResults
  import Mbld

  /**
    `ImpossiblyFast` and `Omitted` name an attempt by its 0-based position
    (messages show position + 1); `BigDifference` carries the best and the
    worst single.
   */
  datatype Warning =
    | ImpossiblyFast(index: nat)
    | BigDifference(best: AttemptResult, worst: AttemptResult)
    | Omitted(index: nat)

  /**
    Thresholds of the two heuristic checks: the fastest believable
    Multi-Blind pace in centiseconds per attempted cube, and how many
    percent of the best single the worst single may reach before the two
    look far apart.
   */
  datatype Calibration = Calibration(paceFloor: int, spreadPercent: int)

  /**
    The range the thresholds must lie in: 60 seconds for 4 cubes is too fast
    while an hour for 4 cubes is not; 5.00 against 25.00 is far apart while
    10.00 against 25.00 is not.
   */
  predicate Calibrated(c: Calibration) {
    1500 < c.paceFloor <= 90000 && 250 < c.spreadPercent <= 500
  }

  /** A Multi-Blind success done faster than `paceFloor` per attempted cube. */
  predicate TooFast(v: AttemptResult, paceFloor: int) {
    IsComplete(v) && Mbld.Decode(v).attempted > 0
    && Mbld.Decode(v).centiseconds < paceFloor * Mbld.Decode(v).attempted
  }

  /** The first attempt done too fast, if any. */
  function FirstTooFast(rs: seq<AttemptResult>, paceFloor: int): (r: Option<nat>)
    ensures r.Some? ==> r.value < |rs| && TooFast(rs[r.value], paceFloor)
    ensures r.Some? ==> forall k | 0 <= k < r.value :: !TooFast(rs[k], paceFloor)
    ensures r.None? <==> forall k | 0 <= k < |rs| :: !TooFast(rs[k], paceFloor)
  {
    if |rs| == 0 then None
    else if TooFast(rs[0], paceFloor) then Some(0)
    else
      assert forall k | 1 <= k < |rs| :: rs[k] == rs[1..][k - 1];
      match FirstTooFast(rs[1..], paceFloor)
      case None => None
      case Some(k) => Some(k + 1)
  }

  /** The successes are far apart: the worst reaches `spreadPercent` % of the best. */
  predicate FarApart(rs: seq<AttemptResult>, spreadPercent: int) {
    IsComplete(Best(rs)) && 100 * LargestSuccess(rs) >= spreadPercent * Best(rs)
  }

  /** A skipped attempt with a result entered somewhere after it. */
  predicate IsOmitted(rs: seq<AttemptResult>, i: int) {
    0 <= i < |rs| && rs[i] == SKIPPED && exists j | i < j < |rs| :: rs[j] != SKIPPED
  }

  /** `rs` without its trailing skipped results. */
  function TrimTrailingSkipped(rs: seq<AttemptResult>): (r: seq<AttemptResult>)
    ensures |r| <= |rs| && r == rs[..|r|]
    ensures forall k | |r| <= k < |rs| :: rs[k] == SKIPPED
    ensures |r| > 0 ==> r[|r| - 1] != SKIPPED
  {
    if |rs| == 0 || rs[|rs| - 1] != SKIPPED then rs
    else TrimTrailingSkipped(rs[..|rs| - 1])
  }

  /** The first position holding `x`, if any. */
  function IndexOf(s: seq<AttemptResult>, x: AttemptResult): (r: Option<nat>)
    ensures r.Some? ==> r.value < |s| && s[r.value] == x && x !in s[..r.value]
    ensures r.None? <==> x !in s
  {
    if |s| == 0 then None
    else if s[0] == x then Some(0)
    else
      match IndexOf(s[1..], x)
      case None => None
      case Some(k) =>
        assert s[..k + 1] == [s[0]] + s[1..][..k];
        Some(k + 1)
  }

  /** The first omitted attempt: the first skip before the trailing skips. */
  function FirstOmitted(rs: seq<AttemptResult>): (r: Option<nat>)
    ensures r.Some? ==> IsOmitted(rs, r.value) && forall k | 0 <= k < r.value :: !IsOmitted(rs, k)
    ensures r.None? <==> forall k | 0 <= k < |rs| :: !IsOmitted(rs, k)
  {
    FirstSkipBeforeTrailingIsOmitted(rs);
    IndexOf(TrimTrailingSkipped(rs), SKIPPED)
  }

  lemma FirstSkipBeforeTrailingIsOmitted(rs: seq<AttemptResult>)
    ensures var r := IndexOf(TrimTrailingSkipped(rs), SKIPPED);
      && (r.Some? ==> IsOmitted(rs, r.value) && forall k | 0 <= k < r.value :: !IsOmitted(rs, k))
      && (r.None? <==> forall k | 0 <= k < |rs| :: !IsOmitted(rs, k))
  {
    var trimmed := TrimTrailingSkipped(rs);
    var r := IndexOf(trimmed, SKIPPED);
    if r.Some? {
      FirstSkipIsOmitted(rs, trimmed, r.value);
    } else {
      NothingOmittedBeforeTrailing(rs, trimmed);
    }
  }

  /** A skip inside the trimmed prefix is omitted, and no earlier position is. */
  lemma FirstSkipIsOmitted(rs: seq<AttemptResult>, trimmed: seq<AttemptResult>, i: nat)
    requires |trimmed| <= |rs| && trimmed == rs[..|trimmed|]
    requires |trimmed| > 0 ==> trimmed[|trimmed| - 1] != SKIPPED
    requires i < |trimmed| && trimmed[i] == SKIPPED && SKIPPED !in trimmed[..i]
    ensures IsOmitted(rs, i) && forall k | 0 <= k < i :: !IsOmitted(rs, k)
  {
    var last := |trimmed| - 1;
    assert rs[i] == trimmed[i];
    assert rs[last] == trimmed[last];
    forall k | 0 <= k < i ensures !IsOmitted(rs, k) {
      assert rs[k] == trimmed[..i][k];
    }
  }

  /** With no skip in the trimmed prefix, no position is omitted. */
  lemma NothingOmittedBeforeTrailing(rs: seq<AttemptResult>, trimmed: seq<AttemptResult>)
    requires |trimmed| <= |rs| && trimmed == rs[..|trimmed|]
    requires forall k | |trimmed| <= k < |rs| :: rs[k] == SKIPPED
    requires SKIPPED !in trimmed
    ensures forall k | 0 <= k < |rs| :: !IsOmitted(rs, k)
  {
    forall k | 0 <= k < |rs| ensures !IsOmitted(rs, k) {
      if k < |trimmed| {
        assert rs[k] == trimmed[k];
      }
    }
  }

  /**
    The warning for a sequence of results, most important first: an
    impossibly fast Multi-Blind attempt, then (for other formats) a best and
    worst single far apart, then an omitted attempt; none when nothing looks
    wrong.
   */
  function AttemptResultsWarning(rs: seq<AttemptResult>, format: Format, calibration: Calibration): (w: Option<Warning>)
    requires Calibrated(calibration)
    ensures w.None? <==>
      && (format == MultiBlind ==> forall k | 0 <= k < |rs| :: !TooFast(rs[k], calibration.paceFloor))
      && (format != MultiBlind ==> !FarApart(rs, calibration.spreadPercent))
      && forall k | 0 <= k < |rs| :: !IsOmitted(rs, k)
    ensures w.Some? && w.value.ImpossiblyFast? ==>
      && format == MultiBlind
      && w.value.index < |rs| && TooFast(rs[w.value.index], calibration.paceFloor)
      && forall k | 0 <= k < w.value.index :: !TooFast(rs[k], calibration.paceFloor)
    ensures w.Some? && w.value.BigDifference? ==>
      && format != MultiBlind
      && FarApart(rs, calibration.spreadPercent)
      && w.value.best == Best(rs) && w.value.worst == LargestSuccess(rs)
    ensures w.Some? && w.value.Omitted? ==>
      && (format == MultiBlind ==> forall k | 0 <= k < |rs| :: !TooFast(rs[k], calibration.paceFloor))
      && (format != MultiBlind ==> !FarApart(rs, calibration.spreadPercent))
      && IsOmitted(rs, w.value.index)
      && forall k | 0 <= k < w.value.index :: !IsOmitted(rs, k)
  {
    var fast := if format == MultiBlind then FirstTooFast(rs, calibration.paceFloor) else None;
    if fast.Some? then Some(ImpossiblyFast(fast.value))
    else if format != MultiBlind && FarApart(rs, calibration.spreadPercent) then
      Some(BigDifference(Best(rs), LargestSuccess(rs)))
    else
      match FirstOmitted(rs)
      case Some(i) => Some(Omitted(i))
      case None => None
  }
}
