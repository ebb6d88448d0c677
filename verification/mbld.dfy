/**
  The 3x3x3 Multi-Blind packed attempt result.

  A successful attempt is stored as the decimal number DDTTTTTMM, where
  DD = 99 - points, TTTTT = the time in whole seconds and MM = the number of
  missed cubes; points = solved - missed. The sentinels 0, -1 and -2 stand for
  themselves.
 */
module Mbld {
  import opened AttemptResults
  import opened Rounding

  /** Position of the points field (DD) in the packed number. */
  const POINTS_UNIT: int := 10_000_000
  /** Position of the seconds field (TTTTT) in the packed number. */
  const SECONDS_UNIT: int := 100
  /** Width limit of the seconds field. */
  const MAX_SECONDS: int := 100_000
  /** Points are stored as their distance from this value. */
  const POINTS_BASE: int := 99

  /** Ten minutes per attempted cube, capped at one hour (WCA Regulation H1b). */
  const TIME_PER_CUBE: int := TEN_MINUTES
  const MAX_TIMED_CUBES: int := 6

  /** A decoded Multi-Blind attempt. */
  datatype Decoded = Decoded(solved: int, attempted: int, centiseconds: int)

  /** The decoded form of a DNF. */
  const DNF_DECODED: Decoded := Decoded(0, 0, DNF)

  function Missed(d: Decoded): int {
    d.attempted - d.solved
  }

  function Points(d: Decoded): int {
    d.solved - Missed(d)
  }

  /** The sentinel triples: skipped, DNF and DNS with no cubes. */
  predicate IsSentinel(d: Decoded) {
    d.solved == 0 && d.attempted == 0 && -2 <= d.centiseconds <= 0
  }

  /**
    A triple whose fields fit the packed layout exactly: at most 99 missed
    cubes, at most 99 points, a positive time below 100000 seconds given in
    whole seconds.
   */
  predicate FitsLayout(d: Decoded) {
    && 0 <= Missed(d) < 100
    && Points(d) <= POINTS_BASE
    && 0 < d.centiseconds < MAX_SECONDS * 100
    && d.centiseconds % 100 == 0
  }

  /** Unpacks an attempt result into solved, attempted and centiseconds. */
  function Decode(v: AttemptResult): (d: Decoded)
    ensures v <= 0 ==> d == Decoded(0, 0, v)
    ensures v > 0 ==> 0 <= Missed(d) < 100 && Points(d) <= POINTS_BASE
    ensures v > 0 ==> 0 <= d.centiseconds < MAX_SECONDS * 100 && d.centiseconds % 100 == 0
  {
    if v <= 0 then Decoded(0, 0, v)
    else
      var points := POINTS_BASE - v / POINTS_UNIT;
      var remainder := v % POINTS_UNIT;
      var missed := remainder % SECONDS_UNIT;
      var seconds := remainder / SECONDS_UNIT;
      Decoded(points + missed, points + 2 * missed, seconds * 100)
  }

  /**
    Packs a triple. Sentinel times pass through; a success has its time
    rounded to the nearest second, halves up.
   */
  function Encode(d: Decoded): (v: int)
    ensures d.centiseconds <= 0 ==> v == d.centiseconds
    ensures FitsLayout(d) ==> v > 0
  {
    if d.centiseconds <= 0 then d.centiseconds
    else
      var seconds := RoundHalfUp(d.centiseconds, 100);
      (POINTS_BASE - Points(d)) * POINTS_UNIT + seconds * SECONDS_UNIT + Missed(d)
  }

  /** The sentinels decode and encode as themselves. */
  lemma SentinelRoundTrip(v: AttemptResult)
    requires v <= 0
    ensures IsSentinel(Decode(v))
    ensures Encode(Decode(v)) == v
  {
  }

  /** Decoding a packed value gives back the triple that was packed. */
  lemma {:induction false} DecodeEncode(d: Decoded)
    requires FitsLayout(d) || IsSentinel(d)
    ensures Encode(d) >= -2
    ensures Decode(Encode(d)) == d
  {
    if !IsSentinel(d) {
      var v := Encode(d);
      var s := d.centiseconds / 100;
      assert RoundHalfUp(d.centiseconds, 100) == s;
      var hi := POINTS_BASE - Points(d);
      assert v == hi * POINTS_UNIT + (s * SECONDS_UNIT + Missed(d));
      assert 0 <= s * SECONDS_UNIT + Missed(d) < POINTS_UNIT;
      assert v / POINTS_UNIT == hi;
      assert v % POINTS_UNIT == s * SECONDS_UNIT + Missed(d);
    }
  }

  /**
    Every positive value whose time field is non-zero is a packed triple:
    encoding its decoding gives it back.
   */
  lemma {:induction false} EncodeDecode(v: AttemptResult)
    requires v <= 0 || v % POINTS_UNIT >= SECONDS_UNIT
    ensures Encode(Decode(v)) == v
  {
    if v > 0 {
      var d := Decode(v);
      var s := v % POINTS_UNIT / SECONDS_UNIT;
      assert d.centiseconds == s * 100 && s >= 1;
      assert RoundHalfUp(d.centiseconds, 100) == s;
      assert v == v / POINTS_UNIT * POINTS_UNIT + v % POINTS_UNIT;
    }
  }

  /**
    Encoding keeps everything but the hundredths: the decoded time is the
    entered time rounded to the nearest second.
   */
  lemma {:induction false} EncodeRoundsToSeconds(d: Decoded)
    requires 0 <= Missed(d) < 100 && Points(d) <= POINTS_BASE
    requires 50 <= d.centiseconds < MAX_SECONDS * 100 - 50
    ensures Decode(Encode(d)) == Decoded(d.solved, d.attempted, RoundHalfUp(d.centiseconds, 100) * 100)
  {
    var s := RoundHalfUp(d.centiseconds, 100);
    var e := Decoded(d.solved, d.attempted, s * 100);
    assert 1 <= s < MAX_SECONDS;
    assert RoundHalfUp(s * 100, 100) == s;
    assert Encode(e) == Encode(d);
    DecodeEncode(e);
  }

  /**
    The packed order is the Multi-Blind ranking: a smaller code means more
    points, or as many points in less time, or the same points and time with
    fewer cubes missed. So packed successes can be compared as plain numbers.
   */
  lemma {:induction false} EncodeOrdersByRanking(a: Decoded, b: Decoded)
    requires FitsLayout(a) && FitsLayout(b)
    ensures Encode(a) < Encode(b) <==>
      || Points(a) > Points(b)
      || (Points(a) == Points(b) && a.centiseconds < b.centiseconds)
      || (Points(a) == Points(b) && a.centiseconds == b.centiseconds && Missed(a) < Missed(b))
  {
    var sa, sb := a.centiseconds / 100, b.centiseconds / 100;
    assert RoundHalfUp(a.centiseconds, 100) == sa;
    assert RoundHalfUp(b.centiseconds, 100) == sb;
    var la, lb := sa * SECONDS_UNIT + Missed(a), sb * SECONDS_UNIT + Missed(b);
    assert Encode(a) == (POINTS_BASE - Points(a)) * POINTS_UNIT + la;
    assert Encode(b) == (POINTS_BASE - Points(b)) * POINTS_UNIT + lb;
    assert 0 <= la < POINTS_UNIT && 0 <= lb < POINTS_UNIT;
    assert la < lb <==> sa < sb || (sa == sb && Missed(a) < Missed(b));
  }

  /** Time allowed for an attempt on `attempted` cubes, before the grace margin. */
  function CubeTimeLimit(attempted: int): int {
    (if attempted < MAX_TIMED_CUBES then attempted else MAX_TIMED_CUBES) * TIME_PER_CUBE
  }

  /**
    The grace allowed per attempted cube over the time limit (room for +2
    penalties). Its exact value is a calibration: 30:12 for three cubes must
    pass and 40:00 must not.
   */
  predicate CalibratedGrace(gracePerCube: int) {
    400 <= gracePerCube < 20000
  }

  /** What the entered cube counts are completed to before they are checked. */
  function CompletedAttempted(d: Decoded): int {
    if d.attempted == 0 || d.solved > d.attempted then d.solved else d.attempted
  }

  /**
    Why an (already completed) triple cannot stand: more cubes missed than
    solved, exactly one of two solved, or a time well over the limit.
   */
  predicate Rejected(d: Decoded, gracePerCube: int) {
    || Points(d) < 0
    || (d.solved == 1 && d.attempted == 2)
    || d.centiseconds > CubeTimeLimit(d.attempted) + d.attempted * gracePerCube
  }

  /**
    Auto-correction of an entered triple: a missing or too small attempted
    count is raised to the solved count; a triple that cannot stand becomes
    a DNF; anything else is kept.
   */
  function Autocomplete(d: Decoded, gracePerCube: int): (r: Decoded)
    requires CalibratedGrace(gracePerCube)
    ensures r == DNF_DECODED || r == Decoded(d.solved, CompletedAttempted(d), d.centiseconds)
    ensures r.solved <= r.attempted
    ensures r.attempted == 0 ==> r.solved == 0
    ensures !Rejected(r, gracePerCube)
    ensures Rejected(Decoded(d.solved, CompletedAttempted(d), d.centiseconds), gracePerCube) ==> r == DNF_DECODED
    ensures r != Decoded(d.solved, CompletedAttempted(d), d.centiseconds) ==> Rejected(Decoded(d.solved, CompletedAttempted(d), d.centiseconds), gracePerCube)
  {
    var completed := Decoded(d.solved, CompletedAttempted(d), d.centiseconds);
    if Rejected(completed, gracePerCube) then DNF_DECODED else completed
  }

  /** Auto-correcting an auto-corrected triple changes nothing. */
  lemma AutocompleteIdempotent(d: Decoded, gracePerCube: int)
    requires CalibratedGrace(gracePerCube)
    ensures Autocomplete(Autocomplete(d, gracePerCube), gracePerCube) == Autocomplete(d, gracePerCube)
  {
  }
}
