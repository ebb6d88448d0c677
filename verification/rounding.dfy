/**
  Rounding rules shared by averages and by the auto-completion of single
  attempts, and the per-format auto-completion of entered values.
 */
module Rounding {
  import opened AttemptResults

  /** Ten minutes in centiseconds: from here on results count in whole seconds. */
  const TEN_MINUTES: int := 60000

  /** The most moves a Fewest Moves solution may have. */
  const MAX_FM_MOVES: int := 80

  /**
    `a / b` rounded to the nearest integer, halves rounded up (JavaScript's
    `Math.round(a / b)` on exact rationals).
   */
  function RoundHalfUp(a: int, b: int): (r: int)
    requires b > 0
    ensures 2 * b * r - b <= 2 * a < 2 * b * r + b
  {
    var q := (2 * a + b) / (2 * b);
    assert 2 * b * q <= 2 * a + b < 2 * b * q + 2 * b;
    q
  }

  /**
    Results of ten minutes or more are rounded to the nearest whole second,
    halves up; anything shorter, and every sentinel, is kept as it is.
    This is the auto-completion of a timed attempt and the last step of a
    timed average.
   */
  function RoundOverTenMinutes(v: int): (r: int)
    ensures v < TEN_MINUTES ==> r == v
    ensures v >= TEN_MINUTES ==> r >= TEN_MINUTES && r % 100 == 0 && v - 50 < r <= v + 50
  {
    if v < TEN_MINUTES then v else RoundHalfUp(v, 100) * 100
  }

  /** Rounding twice is rounding once. */
  lemma RoundOverTenMinutesIdempotent(v: int)
    ensures RoundOverTenMinutes(RoundOverTenMinutes(v)) == RoundOverTenMinutes(v)
  {
    var r := RoundOverTenMinutes(v);
    if v >= TEN_MINUTES {
      var k := r / 100;
      assert r == 100 * k;
      assert RoundHalfUp(r, 100) == k;
    }
  }

  /** Rounding never changes which of two results is better. */
  lemma RoundOverTenMinutesMonotonic(v: int, w: int)
    requires v <= w
    ensures RoundOverTenMinutes(v) <= RoundOverTenMinutes(w)
  {
    if v >= TEN_MINUTES {
      var a, b := RoundHalfUp(v, 100), RoundHalfUp(w, 100);
      assert 200 * a - 100 <= 2 * v;
      assert 2 * w < 200 * b + 100;
      assert a <= b;
    } else if w >= TEN_MINUTES {
      assert RoundOverTenMinutes(w) >= TEN_MINUTES;
    }
  }

  /**
    Auto-completion of a Fewest Moves attempt: a solution over 80 moves is a
    DNF, every other value (including sentinels) is kept.
   */
  function AutocompleteFm(v: AttemptResult): (r: AttemptResult)
    ensures r <= MAX_FM_MOVES
    ensures r == v || r == DNF
    ensures r == DNF <==> v > MAX_FM_MOVES || v == DNF
  {
    if v > MAX_FM_MOVES then DNF else v
  }
}
