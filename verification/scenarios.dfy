/**
  The concrete cases of the attempt-result test suite, stated against the
  model: each lemma fixes the model's answer on the inputs the tests use.
 */
module Scenarios {
  import opened Wrappers
  import opened AttemptResults
  import opened Rounding
  import opened Averages
  import opened Mbld
  import opened Qualification
  import opened Warnings
  import opened Decimal
  import opened Formatting

  lemma BestScenarios()
    ensures Best([]) == SKIPPED && Best([0, 0, 0]) == SKIPPED && Best([0, 0, 0, 0, 0]) == SKIPPED
    ensures Best([-1, -1, -2]) == DNF && Best([-1, -1, 0, 0, 0]) == DNF
    ensures Best([-1]) == DNF && Best([-2]) == DNS && Best([1000]) == 1000
    ensures Best([-2, -2]) == DNS && Best([-2, 0]) == DNS
    ensures Best([980, -1, -2]) == 980
    ensures Best([1100, 1200, 980, 950, 890]) == 890
  {
    BestOfSkipsAndFailures();
    BestOfSuccesses();
  }

  lemma BestOfSkipsAndFailures()
    ensures Best([]) == SKIPPED && Best([0, 0, 0]) == SKIPPED && Best([0, 0, 0, 0, 0]) == SKIPPED
    ensures Best([-1, -1, -2]) == DNF && Best([-1, -1, 0, 0, 0]) == DNF
    ensures Best([-1]) == DNF && Best([-2]) == DNS
    ensures Best([-2, -2]) == DNS && Best([-2, 0]) == DNS
  {
  }

  lemma BestOfSuccesses()
    ensures Best([1000]) == 1000 && Best([980, -1, -2]) == 980
    ensures Best([1100, 1200, 980, 950, 890]) == 890
  {
    var s := [1100, 1200, 980, 950, 890];
    assert s[4] == 890;
  }

  lemma AverageErrorScenarios()
    ensures Average([1000, 1100, 1200], None) == Failure(MissingEventId)
    ensures Average([1100, 900], Some(Time)) == Failure(InvalidNumberOfResults(2))
  {
  }

  lemma AverageOfMultiBlindIsSkipped()
    ensures Average([970360001, 970360001, 970360001], Some(MultiBlind)) == Success(SKIPPED)
  {
  }

  lemma AverageWithSkippedIsSkipped()
    ensures Average([1000, 1100, 1300, 0, 1200], Some(Time)) == Success(SKIPPED)
  {
    assert 0 in [1000, 1100, 1300, 0, 1200];
  }

  lemma AverageOfThreeWithDnf()
    ensures Average([980, -1, 1010], Some(Time)) == Success(DNF)
  {
    var a := [980, -1, 1010];
    assert a[1] == DNF;
    AverageOfThree(a, Time);
  }

  lemma AverageOfThreeWithDns()
    ensures Average([980, 900, -2], Some(Time)) == Success(DNF)
  {
    var a := [980, 900, -2];
    assert a[2] == DNS;
    AverageOfThree(a, Time);
  }

  lemma AverageOfFiveWithTwoDnfs()
    ensures Average([-1, 980, 890, -1, 910], Some(Time)) == Success(DNF)
  {
    var b := [-1, 980, 890, -1, 910];
    TwoDnfsCounted();
    AverageOfFive(b, Time, 890, DNF);
  }

  lemma TwoDnfsCounted()
    ensures Unsuccessful([-1, 980, 890, -1, 910]) == 2
  {
    var b := [-1, 980, 890, -1, 910];
    assert multiset(b)[DNF] == 2;
    UnsuccessfulOfMultiset(b);
  }

  lemma AverageOfFiveWithTwoUnsuccessful()
    ensures Average([-1, 980, -2, 890, 910], Some(Time)) == Success(DNF)
  {
    var b := [-1, 980, -2, 890, 910];
    assert multiset(b)[DNF] == 1 && multiset(b)[DNS] == 1;
    UnsuccessfulOfMultiset(b);
    AverageOfFive(b, Time, 890, DNF);
  }

  /** Ties an average of five to its trimmed mean without unfolding the literal. */
  lemma AverageOfFiveIs(rs: seq<AttemptResult>, format: Format, lo: AttemptResult, hi: AttemptResult, expected: int)
    requires |rs| == 5 && SKIPPED !in rs && format != MultiBlind && lo in rs && hi in rs
    requires forall x | x in rs :: RankedNoWorse(lo, x) && RankedNoWorse(x, hi)
    requires Unsuccessful(rs) < 2 && Sum(rs) - lo - hi >= 3
    requires Mean(format, Sum(rs) - lo - hi, 3) == expected
    ensures Average(rs, Some(format)) == Success(expected)
  {
    AverageOfFive(rs, format, lo, hi);
  }

  lemma AverageOfFiveDropsExtremes()
    ensures Average([900, 800, 700, 4000, 600], Some(Time)) == Success(800)
  {
    var c := [900, 800, 700, 4000, 600];
    ExtremesOfFive();
    assert Sum(c) == 7000;
    assert Mean(Time, 2400, 3) == 800;
    AverageOfFiveIs(c, Time, 600, 4000, 800);
  }

  lemma ExtremesOfFive()
    ensures var c := [900, 800, 700, 4000, 600];
      && 600 in c && 4000 in c && Unsuccessful(c) == 0
      && forall x | x in c :: RankedNoWorse(600, x) && RankedNoWorse(x, 4000)
  {
    var c := [900, 800, 700, 4000, 600];
    assert c[4] == 600 && c[3] == 4000;
    assert forall i | 0 <= i < |c| :: IsComplete(c[i]);
    UnsuccessfulPresent(c);
  }

  lemma AverageOfFiveDropsFastest()
    ensures Average([900, 800, 700, 1000, 300], Some(Time)) == Success(800)
  {
    var c := [900, 800, 700, 1000, 300];
    ExtremesOfOtherFive();
    assert Sum(c) == 3700;
    assert Mean(Time, 2400, 3) == 800;
    AverageOfFiveIs(c, Time, 300, 1000, 800);
  }

  lemma ExtremesOfOtherFive()
    ensures var c := [900, 800, 700, 1000, 300];
      && 300 in c && 1000 in c && Unsuccessful(c) == 0
      && forall x | x in c :: RankedNoWorse(300, x) && RankedNoWorse(x, 1000)
  {
    var c := [900, 800, 700, 1000, 300];
    assert c[4] == 300 && c[3] == 1000;
    assert forall i | 0 <= i < |c| :: IsComplete(c[i]);
    UnsuccessfulPresent(c);
  }

  lemma AverageOfFiveDropsOneDnf()
    ensures Average([-1, 600, 600, 600, 500], Some(Time)) == Success(600)
  {
    var d := [-1, 600, 600, 600, 500];
    ExtremesOfFiveWithDnf();
    assert Sum(d) == 2299;
    assert Mean(Time, 1800, 3) == 600;
    AverageOfFiveIs(d, Time, 500, DNF, 600);
  }

  lemma ExtremesOfFiveWithDnf()
    ensures var d := [-1, 600, 600, 600, 500];
      && 500 in d && DNF in d && Unsuccessful(d) == 1
      && forall x | x in d :: RankedNoWorse(500, x) && RankedNoWorse(x, DNF)
  {
    var d := [-1, 600, 600, 600, 500];
    assert d[4] == 500 && d[0] == DNF;
    OneDnfCounted();
  }

  lemma OneDnfCounted()
    ensures Unsuccessful([-1, 600, 600, 600, 500]) == 1
  {
    var d := [-1, 600, 600, 600, 500];
    assert multiset(d) == multiset{-1, 600, 600, 600, 500};
    UnsuccessfulOfMultiset(d);
  }

  lemma MeanOfThree()
    ensures Average([400, 500, 900], Some(Time)) == Success(600)
  {
    AverageOfThree([400, 500, 900], Time);
  }

  lemma MeanOverTenMinutesRoundsDown()
    ensures Average([60041, 60041, 60041], Some(Time)) == Success(60000)
  {
    AverageOfThree([60041, 60041, 60041], Time);
  }

  lemma MeanOverTenMinutesRoundsUp()
    ensures Average([60051, 60051, 60051], Some(Time)) == Success(60100)
  {
    AverageOfThree([60051, 60051, 60051], Time);
  }

  lemma FewestMovesMean()
    ensures Average([24, 25, 26], Some(Moves)) == Success(2500)
  {
    AverageOfThree([24, 25, 26], Moves);
  }

  lemma FewestMovesMeanRounded()
    ensures Average([24, 24, 25], Some(Moves)) == Success(2433)
  {
    AverageOfThree([24, 24, 25], Moves);
  }

  lemma TenMinuteRoundingScenarios()
    ensures RoundOverTenMinutes(60041) == 60000 && RoundOverTenMinutes(60051) == 60100
    ensures RoundOverTenMinutes(900) == 900 && RoundOverTenMinutes(DNF) == DNF
    ensures AutocompleteFm(81) == DNF && AutocompleteFm(25) == 25 && AutocompleteFm(DNF) == DNF
  {
  }

  lemma SentinelsDecode()
    ensures Decode(0) == Decoded(0, 0, 0) && Decode(-1) == Decoded(0, 0, -1) && Decode(-2) == Decoded(0, 0, -2)
  {
  }

  lemma SentinelsEncode()
    ensures Encode(Decoded(0, 0, 0)) == 0 && Encode(Decoded(0, 0, -1)) == -1 && Encode(Decoded(0, 0, -2)) == -2
  {
    SentinelRoundTrip(0);
    SentinelRoundTrip(-1);
    SentinelRoundTrip(-2);
  }

  lemma DecodeScenario()
    ensures Decode(900348002) == Decoded(11, 13, 348000)
  {
  }

  lemma EncodeScenario()
    ensures Encode(Decoded(11, 13, 348000)) == 900348002
  {
  }

  lemma EncodeRoundsScenario()
    ensures Encode(Decoded(11, 13, 348050)) == 900348102
  {
    assert RoundHalfUp(348050, 100) == 3481;
  }

  lemma AutocompleteRaisesMissingAttempted(grace: int)
    requires CalibratedGrace(grace)
    ensures Autocomplete(Decoded(2, 0, 6000), grace) == Decoded(2, 2, 6000)
  {
  }

  lemma AutocompleteRaisesSmallAttempted(grace: int)
    requires CalibratedGrace(grace)
    ensures Autocomplete(Decoded(3, 2, 6000), grace) == Decoded(3, 3, 6000)
  {
  }

  lemma AutocompleteRejectsMoreMissedThanSolved(grace: int)
    requires CalibratedGrace(grace)
    ensures Autocomplete(Decoded(2, 5, 6000), grace) == DNF_DECODED
  {
  }

  lemma AutocompleteRejectsOneOfTwo(grace: int)
    requires CalibratedGrace(grace)
    ensures Autocomplete(Decoded(1, 2, 6000), grace) == DNF_DECODED
  {
  }

  lemma AutocompleteRejectsOverTime(grace: int)
    requires CalibratedGrace(grace)
    ensures Autocomplete(Decoded(2, 3, 240000), grace) == DNF_DECODED
  {
    assert 3 * grace < 60000;
  }

  lemma AutocompleteKeepsPenaltyRoom(grace: int)
    requires CalibratedGrace(grace)
    ensures Autocomplete(Decoded(2, 3, 181200), grace) == Decoded(2, 3, 181200)
  {
    var d := Decoded(2, 3, 181200);
    assert Mbld.CubeTimeLimit(3) == 180000 && 3 * grace >= 1200;
    assert !Rejected(d, grace);
    KeptWhenNotRejected(d, grace);
  }

  lemma AutocompleteCapsLimitAtSixCubes(grace: int)
    requires CalibratedGrace(grace)
    ensures Autocomplete(Decoded(11, 12, 360000), grace) == Decoded(11, 12, 360000)
  {
    var d := Decoded(11, 12, 360000);
    assert Mbld.CubeTimeLimit(12) == 360000 && 12 * grace >= 0;
    assert !Rejected(d, grace);
    KeptWhenNotRejected(d, grace);
  }

  /** A triple that auto-correction would not change nor reject is kept as it is. */
  lemma KeptWhenNotRejected(d: Decoded, grace: int)
    requires CalibratedGrace(grace)
    requires CompletedAttempted(d) == d.attempted && !Rejected(d, grace)
    ensures Autocomplete(d, grace) == d
  {
  }

  lemma CutoffScenarios()
    ensures MeetsCutoff([-1, -1], None)
    ensures MeetsCutoff([1000, 850, 0, 0, 0], Some(Cutoff(2, 900)))
    ensures !MeetsCutoff([1000, 950, 800, 0, 0], Some(Cutoff(2, 900)))
    ensures !MeetsCutoff([900, 700, 0], Some(Cutoff(2, 700)))
    ensures ApplyCutoff([1000, 800, 1200, 0, 0], Cutoff(2, 800)) == [1000, 800, 0, 0, 0]
    ensures ApplyCutoff([1000, 799, 1200, 1000, 900], Cutoff(2, 800)) == [1000, 799, 1200, 1000, 900]
  {
    var s := [1000, 850, 0, 0, 0];
    assert 0 < s[1] < 900;
    var t := [1000, 799, 1200, 1000, 900];
    assert 0 < t[1] < 800;
    var u := ApplyCutoff([1000, 800, 1200, 0, 0], Cutoff(2, 800));
    assert u == [1000, 800, 0, 0, 0];
  }

  lemma TimeLimitScenarios()
    ensures var rs, limit := [1000, 1250, 1100, 1300, 0], TimeLimit(1250, []);
      && !OverLimit(rs, limit, 0) && OverLimit(rs, limit, 1) && !OverLimit(rs, limit, 2)
      && OverLimit(rs, limit, 3) && !OverLimit(rs, limit, 4)
    ensures var rs, limit := [3000, 12000, 5000], TimeLimit(20000, ["333bf"]);
      && !OverLimit(rs, limit, 0) && !OverLimit(rs, limit, 1) && OverLimit(rs, limit, 2)
  {
    var rs := [3000, 12000, 5000];
    assert rs[..1] == [3000] && rs[..2] == [3000, 12000] && rs[..3] == rs;
    assert [3000, 12000][..1] == [3000] && [3000][..0] == [];
  }

  /** The two time-limit cases of the suite, run through the method. */
  method TimeLimitOutcomes() returns (perAttempt: seq<AttemptResult>, cumulative: seq<AttemptResult>)
    ensures perAttempt == [1000, DNF, 1100, DNF, 0]
    ensures cumulative == [3000, 12000, DNF]
  {
    TimeLimitScenarios();
    perAttempt := ApplyTimeLimit([1000, 1250, 1100, 1300, 0], TimeLimit(1250, []));
    cumulative := ApplyTimeLimit([3000, 12000, 5000], TimeLimit(20000, ["333bf"]));
  }

  // The classifier's verdict from the facts that decide it, over any results.

  lemma FastWarned(rs: seq<AttemptResult>, c: Calibration, i: nat)
    requires Calibrated(c)
    requires i < |rs| && TooFast(rs[i], c.paceFloor) && forall k | 0 <= k < i :: !TooFast(rs[k], c.paceFloor)
    ensures AttemptResultsWarning(rs, MultiBlind, c) == Some(ImpossiblyFast(i))
  {
  }

  lemma SpreadWarned(rs: seq<AttemptResult>, c: Calibration)
    requires Calibrated(c) && FarApart(rs, c.spreadPercent)
    ensures AttemptResultsWarning(rs, Time, c) == Some(BigDifference(Best(rs), LargestSuccess(rs)))
  {
  }

  lemma OmissionWarned(rs: seq<AttemptResult>, c: Calibration, i: nat)
    requires Calibrated(c) && !FarApart(rs, c.spreadPercent)
    requires IsOmitted(rs, i) && forall k | 0 <= k < i :: !IsOmitted(rs, k)
    ensures AttemptResultsWarning(rs, Time, c) == Some(Omitted(i))
  {
  }

  lemma NothingWarned(rs: seq<AttemptResult>, c: Calibration)
    requires Calibrated(c) && !FarApart(rs, c.spreadPercent)
    requires forall k | 0 <= k < |rs| :: !IsOmitted(rs, k)
    ensures AttemptResultsWarning(rs, Time, c) == None
  {
  }

  lemma WarningImpossiblyFast(c: Calibration)
    requires Calibrated(c)
    ensures AttemptResultsWarning([970360001, 970006001], MultiBlind, c) == Some(ImpossiblyFast(1))
  {
    var rs := [970360001, 970006001];
    assert Decode(rs[0]) == Decoded(3, 4, 360000);
    assert Decode(rs[1]) == Decoded(3, 4, 6000);
    assert !TooFast(rs[0], c.paceFloor) && TooFast(rs[1], c.paceFloor);
    FastWarned(rs, c, 1);
  }

  lemma WarningBigDifference(c: Calibration)
    requires Calibrated(c)
    ensures AttemptResultsWarning([500, 1000, 2500], Time, c) == Some(BigDifference(500, 2500))
  {
    var rs := [500, 1000, 2500];
    assert Best(rs) == 500 && LargestSuccess(rs) == 2500;
    SpreadWarned(rs, c);
  }

  lemma NoWarningForCloseResults(c: Calibration)
    requires Calibrated(c)
    ensures AttemptResultsWarning([900, 1000, 800], Time, c) == None
  {
    var rs := [900, 1000, 800];
    CloseResults();
    NothingWarned(rs, c);
  }

  lemma CloseResults()
    ensures var rs := [900, 1000, 800];
      && Best(rs) == 800 && LargestSuccess(rs) == 1000
      && forall k | 0 <= k < |rs| :: !IsOmitted(rs, k)
  {
    var rs := [900, 1000, 800];
    assert rs[2] == 800 && rs[1] == 1000;
  }

  lemma NoSpreadWarningAfterDnf(c: Calibration)
    requires Calibrated(c)
    ensures AttemptResultsWarning([-1, 1000, 2500], Time, c) == None
  {
    var rs := [-1, 1000, 2500];
    assert Best(rs) == 1000 && LargestSuccess(rs) == 2500;
    assert forall k | 0 <= k < |rs| :: !IsOmitted(rs, k);
    NothingWarned(rs, c);
  }

  lemma WarningOmitted(c: Calibration)
    requires Calibrated(c)
    ensures AttemptResultsWarning([1000, 0, 900], Time, c) == Some(Omitted(1))
  {
    var rs := [1000, 0, 900];
    SpreadOfSkipped();
    OmissionOfSkipped();
    OmissionWarned(rs, c, 1);
  }

  lemma SpreadOfSkipped()
    ensures Best([1000, 0, 900]) == 900 && LargestSuccess([1000, 0, 900]) == 1000
  {
  }

  lemma OmissionOfSkipped()
    ensures IsOmitted([1000, 0, 900], 1) && !IsOmitted([1000, 0, 900], 0)
  {
    var rs := [1000, 0, 900];
    assert rs[1] == SKIPPED && rs[2] != SKIPPED;
  }

  lemma NoWarningForTrailingSkipped(c: Calibration)
    requires Calibrated(c)
    ensures AttemptResultsWarning([1000, 0, 0], Time, c) == None
  {
    var rs := [1000, 0, 0];
    assert Best(rs) == 1000 && LargestSuccess(rs) == 1000;
    assert forall k | 0 <= k < |rs| :: !IsOmitted(rs, k);
    NothingWarned(rs, c);
  }

  lemma FormatSentinels()
    ensures FormatAttemptResult(0, Time, false) == ""
    ensures FormatAttemptResult(-1, Time, false) == "DNF"
    ensures FormatAttemptResult(-2, Time, false) == "DNS"
  {
  }

  lemma FormatSeconds()
    ensures FormatAttemptResult(150, Time, false) == "1.50"
  {
  }

  lemma FormatMinutes()
    ensures FormatAttemptResult(6000, Time, false) == "1:00.00"
  {
  }

  lemma FormatHours()
    ensures FormatAttemptResult(360015, Time, false) == "1:00:00.15"
  {
  }

  lemma FormatUnderOneSecond()
    ensures FormatAttemptResult(15, Time, false) == "0.15"
  {
  }

  lemma FormatMoves()
    ensures FormatAttemptResult(28, Moves, false) == "28"
    ensures FormatAttemptResult(2833, Moves, true) == "28.33"
  {
  }

  lemma FormatMultiBlind()
    ensures FormatAttemptResult(900348002, MultiBlind, false) == "11/13 58:00"
  {
    DecodeScenario();
    MbldDisplayLayout(900348002, false);
    ElevenOfThirteen();
    FiftyEightMinutes();
  }

  lemma ElevenOfThirteen()
    ensures FromNat(11) + ['/'] + (FromNat(13) + [' '] + "58:00") == "11/13 58:00"
  {
    assert FromNat(11) == "11" && FromNat(13) == "13";
  }

  lemma FiftyEightMinutes()
    ensures Join(ClockFields(3480), ':') == "58:00"
  {
    assert FromNat(58) == "58" && TwoDigits(0) == "00";
    assert ClockFields(3480) == ["58", "00"] by {
      assert 3480 / 60 == 58 && 58 / 60 == 0 && 3480 % 60 == 0;
    }
    assert Join(["58", "00"], ':') == "58:00";
  }

  lemma FormatMultiBlindOverAnHour()
    ensures FormatAttemptResult(970360001, MultiBlind, false) == "3/4 1:00:00"
  {
    DecodeOverAnHour();
    MbldDisplayLayout(970360001, false);
    ThreeOfFour();
    OneHour();
  }

  lemma DecodeOverAnHour()
    ensures Decode(970360001) == Decoded(3, 4, 360000)
  {
  }

  lemma ThreeOfFour()
    ensures FromNat(3) + ['/'] + (FromNat(4) + [' '] + "1:00:00") == "3/4 1:00:00"
  {
    assert FromNat(3) == "3" && FromNat(4) == "4";
  }

  lemma OneHour()
    ensures Join(ClockFields(3600), ':') == "1:00:00"
  {
    assert FromNat(1) == "1" && TwoDigits(0) == "00";
    assert ClockFields(3600) == ["1", "00", "00"] by {
      assert 3600 / 60 == 60 && 60 / 60 == 1 && 60 % 60 == 0 && 3600 % 60 == 0;
    }
    assert Join(["1", "00", "00"], ':') == "1:00:00";
  }
}
