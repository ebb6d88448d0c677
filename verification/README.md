# WCA Live attempt results, in Dafny

A model of the attempt-result library behind WCA Live's result entry. WCA Live is the live-results service for World Cube Association competitions. An attempt result is one integer:

- `0` is skipped (no attempt);
- `-1` is DNF;
- `-2` is DNS;
- a positive value is a success:
  - centiseconds for timed events;
  - a move count for Fewest Moves;
  - a packed code for 3x3x3 Multi-Blind.

What is covered:

- the best single and the 3- or 5-result average, with trimming and rounding per Article 9f of the WCA Regulations;
- the Multi-Blind code, meaning its encoding, its decoding and the auto-correction of an entered (solved, attempted, time) triple against the time limit of Regulation H1b;
- the per-format auto-completion of single attempts;
- cutoffs (whether a cutoff is met, and skipping the attempts that follow a missed one);
- time limits, per attempt and cumulative;
- the warning shown for suspicious-looking results, as a datatype;
- the display format of a result, proved readable back.

The implementation module itself is not part of this model. Its behaviour is taken from the assertions of its test suite, `client/src/lib/tests/attempt-result.test.js`, and `Scenarios` restates every one of those assertions against the model.

Modules (one file each):

| module | file | what |
|---|---|---|
| `Wrappers` | wrappers.dfy | `Option`, `Result` |
| `AttemptResults` | attempt_results.dfy | sentinels, `Format`, best single, largest success |
| `Rounding` | rounding.dfy | round-half-up, ten-minute rounding, FM and time auto-completion |
| `Mbld` | mbld.dfy | Multi-Blind code and auto-correction |
| `Averages` | averages.dfy | trimming, mean, average |
| `Qualification` | qualification.dfy | cutoffs and time limits |
| `Warnings` | warnings.dfy | the warning classifier |
| `Decimal` | decimal.dfy | decimal digits of naturals |
| `Formatting` | formatting.dfy | display of results and reading it back |
| `Scenarios` | scenarios.dfy | the test suite's cases |

Decisions about behaviour the tests leave open:

- The event id becomes an `Option<Format>`. `None` is the missing id, which is an error.
- `Math.round(a / b)` becomes the exact integer `(2a + b) / (2b)`, with halves rounded up.
- An average checks, in this order:
  - a missing event id is an error;
  - a length other than 3 or 5 is an error;
  - Multi-Blind gives 0;
  - a skipped result gives 0;
  - any counting DNF or DNS gives DNF;
  - otherwise the result is the mean.
- For trimming, every success ranks ahead of DNS, and DNS ranks ahead of DNF. The average does not depend on how DNF and DNS are ordered.
- A non-cumulative time limit turns an attempt into a DNF when it is at or above the limit. The test title speaks of results "exceeding" the limit, but its data (1250 against a limit of 1250 becomes DNF, line 343-350) require at-or-above, and the model follows the data.
- A cumulative limit turns an attempt into a DNF when it is a success and the running sum of successes, including this one, reaches the limit. Once that happens, every later success is a DNF as well (`CumulativeOverLimitPersists`).
- The Multi-Blind time limit is ten minutes per attempted cube, capped at an hour. An attempt is a DNF only when it is more than a grace margin per cube over that limit.
- Three calibrations are parameters with `requires` bounds. The tests bracket each of them but fix none:
  - the grace margin (`Mbld.CalibratedGrace`);
  - the fastest believable Multi-Blind pace per cube (`Warnings.Calibrated`);
  - the spread percentage at which the best and worst singles count as far apart (`Warnings.Calibrated`).
- Warnings have a priority: an impossibly fast Multi-Blind attempt first, then a big difference between singles, then an omitted attempt. The big-difference check does not apply to Multi-Blind.

## Model

| member | source | states |
|---|---|---|
| AttemptResults.Best | client/src/lib/tests/attempt-result.test.js:16-39 | skipped iff everything is skipped; a success iff some attempt succeeded, and then the smallest success present; DNF iff no success and a DNF is present; DNS iff no success, no DNF and a DNS present |
| AttemptResults.BestOfConcat | client/src/lib/tests/attempt-result.test.js:16-39 | the best of a concatenation is the better of the two bests, so the attempts can be grouped in any way |
| AttemptResults.LargestSuccess | client/src/lib/tests/attempt-result.test.js:310-325 | the worst successful single: a success present and no smaller than any result, or 0 exactly when nothing succeeded |
| Rounding.RoundHalfUp | client/src/lib/tests/attempt-result.test.js:85-88 | the nearest integer to a / b, halves up: 2br - b <= 2a < 2br + b |
| Rounding.RoundOverTenMinutes | client/src/lib/tests/attempt-result.test.js:261-270 | below ten minutes (and every sentinel) unchanged; from ten minutes on, a whole second within half a second of the value |
| Rounding.RoundOverTenMinutesIdempotent | client/src/lib/tests/attempt-result.test.js:261-270 | rounding an already rounded value changes nothing |
| Rounding.RoundOverTenMinutesMonotonic | client/src/lib/tests/attempt-result.test.js:80-83 | rounding keeps the order of two results |
| Rounding.AutocompleteFm | client/src/lib/tests/attempt-result.test.js:250-259 | at most 80 moves; the value is kept or becomes DNF, and becomes DNF exactly for more than 80 moves (or a DNF) |
| Mbld.Decode | client/src/lib/tests/attempt-result.test.js:134-157 | sentinels decode to (0, 0, sentinel); a success decodes to a triple with 0..99 missed cubes, at most 99 points and a whole-second time under 100000 s |
| Mbld.Encode | client/src/lib/tests/attempt-result.test.js:159-169 | a sentinel time encodes as itself; a triple that fits the layout encodes to a success |
| Mbld.SentinelRoundTrip | client/src/lib/tests/attempt-result.test.js:135-164 | 0, -1 and -2 decode to sentinel triples and encode back to themselves |
| Mbld.DecodeEncode | client/src/lib/tests/attempt-result.test.js:153-169 | decoding the code of a whole-second triple that fits the layout gives that triple back |
| Mbld.EncodeDecode | client/src/lib/tests/attempt-result.test.js:153-169 | encoding the decoding of any code with a non-zero time field gives the code back |
| Mbld.EncodeRoundsToSeconds | client/src/lib/tests/attempt-result.test.js:171-178 | encoding keeps solved and attempted and rounds the time to the nearest second, halves up |
| Mbld.EncodeOrdersByRanking | client/src/lib/tests/attempt-result.test.js:153-169 | a smaller code means more points, or equal points in less time, or equal points and time with fewer misses, so codes compare as Multi-Blind results |
| Mbld.Autocomplete | client/src/lib/tests/attempt-result.test.js:181-247 | a missing or too small attempted count is raised to solved; the result is DNF exactly when the completed triple has negative points, one of two solved, or a time over the limit plus grace; otherwise the completed triple is kept |
| Mbld.AutocompleteIdempotent | client/src/lib/tests/attempt-result.test.js:240-247 | auto-correcting an auto-corrected triple changes nothing |
| Averages.RankIsTotalOrder | client/src/lib/tests/attempt-result.test.js:70-74 | the trimming rank is total, antisymmetric and transitive |
| Averages.TrimBestAndWorst | client/src/lib/tests/attempt-result.test.js:70-74 | removes exactly one best- and one worst-ranked result: the counting results and the two removed ones are a permutation of the input, and every counting result ranks between them |
| Averages.Mean | client/src/lib/tests/attempt-result.test.js:76-88 | Fewest Moves: hundredths of a move within half a hundredth of the exact mean; timed: the nearest centisecond whenever that is below ten minutes (a result of ten minutes or more needs an exact mean of at least ten minutes less half a centisecond); from ten minutes on, a whole second within half a second of the nearest-centisecond mean, so within 50.5 centiseconds of the exact mean |
| Averages.Average | client/src/lib/tests/attempt-result.test.js:42-61 | an error without an event id or without 3 or 5 results; 0 for Multi-Blind or with a skipped result, and only then; never DNS |
| Averages.AverageFromCounting | client/src/lib/tests/attempt-result.test.js:63-78 | a valid average is DNF exactly when a counting result is unsuccessful, and otherwise the mean of the counting results |
| Averages.AverageOfThree | client/src/lib/tests/attempt-result.test.js:63-78 | of three results: DNF with any unsuccessful result, else the mean of all three |
| Averages.AverageOfFive | client/src/lib/tests/attempt-result.test.js:63-74 | of five results: DNF with two or more unsuccessful results, else the mean of the three left after removing one best- and one worst-ranked result |
| Averages.UnsuccessfulOfMultiset | client/src/lib/tests/attempt-result.test.js:63-67 | the count of unsuccessful results is the number of DNFs plus the number of DNSs, whatever their order |
| Qualification.MeetsCutoff | client/src/lib/tests/attempt-result.test.js:273-296 | no cutoff is always met; otherwise met iff a success strictly under the cutoff value is among the first numberOfAttempts results |
| Qualification.ApplyCutoff | client/src/lib/tests/attempt-result.test.js:368-385 | keeps the length and the checked attempts; identity when the cutoff is met; otherwise every later attempt is skipped |
| Qualification.ApplyCutoffKeepsVerdict | client/src/lib/tests/attempt-result.test.js:368-385 | applying a cutoff does not change whether it is met |
| Qualification.ApplyCutoffIdempotent | client/src/lib/tests/attempt-result.test.js:368-385 | applying a cutoff twice is applying it once |
| Qualification.ApplyTimeLimit | client/src/lib/tests/attempt-result.test.js:340-365 | keeps the length; an attempt becomes DNF exactly when it is a success at or over the limit (per attempt) or whose running sum of successes reaches it (cumulative); every other result is unchanged |
| Qualification.CumulativeOverLimitPersists | client/src/lib/tests/attempt-result.test.js:354-365 | under a cumulative limit, every success after an attempt over the limit is over it too |
| Qualification.CumulativeAtLeastAsStrict | client/src/lib/tests/attempt-result.test.js:340-365 | an attempt over a per-attempt limit is over the cumulative limit of the same value |
| Warnings.FirstTooFast | client/src/lib/tests/attempt-result.test.js:301-308 | the first Multi-Blind attempt faster than the pace floor per attempted cube, or none iff there is none |
| Warnings.FirstOmitted | client/src/lib/tests/attempt-result.test.js:327-337 | the first skipped attempt followed by an entered one, or none iff there is none |
| Warnings.FirstSkipBeforeTrailingIsOmitted | client/src/lib/tests/attempt-result.test.js:334-337 | the first skip before the trailing skips is exactly the first omitted attempt |
| Warnings.AttemptResultsWarning | client/src/lib/tests/attempt-result.test.js:298-338 | no warning iff no Multi-Blind attempt is too fast, no non-Multi-Blind best and worst are far apart, and nothing is omitted; otherwise the highest-priority warning, naming the first offending attempt or the best and worst singles |
| Decimal.ToNatFromNat | client/src/lib/tests/attempt-result.test.js:104-114 | the decimal digits of a number read back as that number |
| Decimal.TwoDigits | client/src/lib/tests/attempt-result.test.js:104-110 | a number under 100 as exactly two digits that read back as it |
| Formatting.FormatAttemptResult | client/src/lib/tests/attempt-result.test.js:91-102 | empty exactly for a skip; DNF and DNS as words; a success starts with a digit, or with a minus sign only for a Multi-Blind code whose solved count decodes negative |
| Formatting.ReadClockFormat | client/src/lib/tests/attempt-result.test.js:104-114 | a time shown as H:MM:SS.cc, M:SS.cc or S.cc reads back as its centiseconds |
| Formatting.ReadFormatted | client/src/lib/tests/attempt-result.test.js:104-124 | every displayed time, move count and FM average reads back as the value displayed |
| Formatting.ReadFormattedMbld | client/src/lib/tests/attempt-result.test.js:126-131 | a displayed Multi-Blind result reads back as its decoded triple (solved/attempted and the whole-second time) |
| Scenarios.BestScenarios | client/src/lib/tests/attempt-result.test.js:16-39 | the best singles of the suite |
| Scenarios.AverageErrorScenarios | client/src/lib/tests/attempt-result.test.js:43-53 | the missing-id and two-result errors |
| Scenarios.AverageOfMultiBlindIsSkipped | client/src/lib/tests/attempt-result.test.js:55-57 | Multi-Blind has no average |
| Scenarios.AverageWithSkippedIsSkipped | client/src/lib/tests/attempt-result.test.js:59-61 | a skipped result gives no average |
| Scenarios.AverageOfThreeWithDnf | client/src/lib/tests/attempt-result.test.js:64-64 | a DNF among three gives DNF |
| Scenarios.AverageOfThreeWithDns | client/src/lib/tests/attempt-result.test.js:65-65 | a DNS among three gives DNF |
| Scenarios.AverageOfFiveWithTwoDnfs | client/src/lib/tests/attempt-result.test.js:66-66 | two DNFs among five give DNF |
| Scenarios.AverageOfFiveWithTwoUnsuccessful | client/src/lib/tests/attempt-result.test.js:67-67 | a DNF and a DNS among five give DNF |
| Scenarios.AverageOfFiveDropsExtremes | client/src/lib/tests/attempt-result.test.js:71-71 | 4000 and 600 are dropped, the mean is 800 |
| Scenarios.AverageOfFiveDropsFastest | client/src/lib/tests/attempt-result.test.js:72-72 | 1000 and 300 are dropped, the mean is 800 |
| Scenarios.AverageOfFiveDropsOneDnf | client/src/lib/tests/attempt-result.test.js:73-73 | one DNF is dropped as the worst, the mean is 600 |
| Scenarios.MeanOfThree | client/src/lib/tests/attempt-result.test.js:76-78 | three results are not trimmed |
| Scenarios.MeanOverTenMinutesRoundsDown | client/src/lib/tests/attempt-result.test.js:81-81 | 600.41 s averages to 600 s |
| Scenarios.MeanOverTenMinutesRoundsUp | client/src/lib/tests/attempt-result.test.js:82-82 | 600.51 s averages to 601 s |
| Scenarios.FewestMovesMean | client/src/lib/tests/attempt-result.test.js:86-86 | 24, 25, 26 moves average 25.00 |
| Scenarios.FewestMovesMeanRounded | client/src/lib/tests/attempt-result.test.js:87-87 | 24, 24, 25 moves average 24.33 |
| Scenarios.TenMinuteRoundingScenarios | client/src/lib/tests/attempt-result.test.js:250-270 | the FM and time auto-completions of the suite |
| Scenarios.SentinelsDecode | client/src/lib/tests/attempt-result.test.js:135-151 | the sentinels decode to zero counts |
| Scenarios.SentinelsEncode | client/src/lib/tests/attempt-result.test.js:160-164 | sentinel times encode as themselves |
| Scenarios.DecodeScenario | client/src/lib/tests/attempt-result.test.js:153-156 | 900348002 is 11 of 13 in 58:00 |
| Scenarios.EncodeScenario | client/src/lib/tests/attempt-result.test.js:166-169 | 11 of 13 in 58:00 is 900348002 |
| Scenarios.EncodeRoundsScenario | client/src/lib/tests/attempt-result.test.js:171-178 | 58:00.50 encodes as 58:01 |
| Scenarios.AutocompleteRaisesMissingAttempted | client/src/lib/tests/attempt-result.test.js:182-189 | attempted 0 becomes solved |
| Scenarios.AutocompleteRaisesSmallAttempted | client/src/lib/tests/attempt-result.test.js:191-198 | attempted under solved becomes solved |
| Scenarios.AutocompleteRejectsMoreMissedThanSolved | client/src/lib/tests/attempt-result.test.js:200-207 | negative points give DNF |
| Scenarios.AutocompleteRejectsOneOfTwo | client/src/lib/tests/attempt-result.test.js:209-216 | 1 of 2 gives DNF |
| Scenarios.AutocompleteRejectsOverTime | client/src/lib/tests/attempt-result.test.js:218-225 | 40:00 for three cubes gives DNF for every calibrated grace |
| Scenarios.AutocompleteKeepsPenaltyRoom | client/src/lib/tests/attempt-result.test.js:227-238 | 30:12 for three cubes is kept for every calibrated grace |
| Scenarios.AutocompleteCapsLimitAtSixCubes | client/src/lib/tests/attempt-result.test.js:240-247 | an hour for twelve cubes is kept |
| Scenarios.KeptWhenNotRejected | client/src/lib/tests/attempt-result.test.js:240-247 | a complete triple that is not rejected is kept |
| Scenarios.CutoffScenarios | client/src/lib/tests/attempt-result.test.js:273-296 | the cutoff cases of the suite, met and applied |
| Scenarios.TimeLimitScenarios | client/src/lib/tests/attempt-result.test.js:340-365 | which attempts of the suite are over the limit |
| Scenarios.TimeLimitOutcomes | client/src/lib/tests/attempt-result.test.js:340-365 | the time-limited sequences the suite expects |
| Scenarios.WarningImpossiblyFast | client/src/lib/tests/attempt-result.test.js:301-308 | 3 of 4 in one minute is flagged as the second attempt |
| Scenarios.WarningBigDifference | client/src/lib/tests/attempt-result.test.js:310-315 | 5.00 against 25.00 is flagged with both singles |
| Scenarios.NoWarningForCloseResults | client/src/lib/tests/attempt-result.test.js:317-320 | close results give no warning |
| Scenarios.NoSpreadWarningAfterDnf | client/src/lib/tests/attempt-result.test.js:322-325 | a DNF is not a far-apart single |
| Scenarios.WarningOmitted | client/src/lib/tests/attempt-result.test.js:327-332 | a skip before an entered attempt is flagged |
| Scenarios.NoWarningForTrailingSkipped | client/src/lib/tests/attempt-result.test.js:334-337 | trailing skips are not flagged |
| Scenarios.FormatSentinels | client/src/lib/tests/attempt-result.test.js:92-102 | skipped, DNF and DNS are shown as the suite expects |
| Scenarios.FormatSeconds | client/src/lib/tests/attempt-result.test.js:105-105 | 150 is 1.50 |
| Scenarios.FormatMinutes | client/src/lib/tests/attempt-result.test.js:106-106 | 6000 is 1:00.00 |
| Scenarios.FormatHours | client/src/lib/tests/attempt-result.test.js:107-109 | 360015 is 1:00:00.15 |
| Scenarios.FormatUnderOneSecond | client/src/lib/tests/attempt-result.test.js:112-114 | 15 is 0.15 |
| Scenarios.FormatMoves | client/src/lib/tests/attempt-result.test.js:116-124 | 28 moves and a 28.33 average |
| Scenarios.FormatMultiBlind | client/src/lib/tests/attempt-result.test.js:128-128 | 900348002 is 11/13 58:00 |
| Scenarios.FormatMultiBlindOverAnHour | client/src/lib/tests/attempt-result.test.js:129-129 | 970360001 is 3/4 1:00:00 |

## Left out

- The event table. The event id is reduced to its `Format`: `333` is Time, `333fm` is Moves and `333mbf` is MultiBlind.
- Message wording, localisation and whitespace. The warning is a `Warning` value whose indices are 0-based, so a message shows position + 1.
- Floating point. `Math.round` and the divisions are modelled exactly on integers.
- The three calibrations (Multi-Blind grace, pace floor, spread percentage). They are parameters bounded by what the suite brackets, because no value is fixed by it.
- Time limits shared across rounds. A cumulative limit here adds up the attempts of one sequence; the other rounds' results are not modelled.
- The Multi-Blind code for an unknown time (time field 99999). `Encode` and `Decode` treat it as an ordinary time.
- Triples with more than 99 points or more than 99 missed cubes, and codes whose time field is zero. The codec still computes them, but the round-trip lemmas require the layout (`FitsLayout`, a non-zero time field).
- Mbld.EncodeRoundsToSeconds: stated for times from 0.5 s up to half a second below the 100000-second field limit. Shorter or longer times round out of the layout.
- Formatting.FormatAttemptResult: its own contract gives only the sentinel texts and the first character (a digit, or a minus sign for a Multi-Blind code whose solved count decodes negative). The digit layout is stated through the read-back lemmas and the `Scenarios` cases, not as a closed formula.
- Formatting.ReadFormattedMbld: requires a non-negative solved count. A code whose decoded solved count is negative displays a minus sign, which the reader does not parse.
