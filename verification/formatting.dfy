/**
  Display of attempt results: clock times with leading zero units dropped,
  Fewest Moves counts and averages, and Multi-Blind `solved/attempted time`.
  Alongside, a reader for the displayed numbers, to show that the display
  loses nothing.
 */
module Formatting {
  import opened AttemptResults
  import opened Decimal
  import opened Wrappers
  import Mbld

  /** `parts` joined with `sep` between consecutive parts. */
  function Join(parts: seq<seq<char>>, sep: char): seq<char>
    requires |parts| >= 1
    decreases |parts|
  {
    if |parts| == 1 then parts[0] else parts[0] + [sep] + Join(parts[1..], sep)
  }

  /** The units of a whole number of seconds: [hours, minutes, seconds], [minutes, seconds] or [seconds]. */
  function ClockUnits(seconds: nat): seq<nat> {
    var minutes := seconds / 60;
    var hours := minutes / 60;
    if hours > 0 then [hours, minutes % 60, seconds % 60]
    else if minutes > 0 then [minutes, seconds % 60]
    else [seconds]
  }

  /** The same units as text: the leading unit without padding, the others on two digits. */
  function ClockFields(seconds: nat): (fs: seq<seq<char>>)
    ensures |fs| >= 1 && forall i | 0 <= i < |fs| :: AllDigits(fs[i])
  {
    var minutes := seconds / 60;
    var hours := minutes / 60;
    if hours > 0 then [FromNat(hours), TwoDigits(minutes % 60), TwoDigits(seconds % 60)]
    else if minutes > 0 then [FromNat(minutes), TwoDigits(seconds % 60)]
    else [FromNat(seconds)]
  }

  /** A whole number of seconds as H:MM:SS, M:SS or S. */
  function SecondsClock(seconds: nat): seq<char> {
    Join(ClockFields(seconds), ':')
  }

  /** A duration in centiseconds: the clock of its seconds, a point and two digits. */
  function ClockFormat(centiseconds: nat): seq<char> {
    SecondsClock(centiseconds / 100) + "." + TwoDigits(centiseconds % 100)
  }

  function IntToString(i: int): (s: seq<char>)
    ensures |s| >= 1 && (IsDigit(s[0]) || s[0] == '-')
    ensures IsDigit(s[0]) <==> i >= 0
  {
    if i < 0 then "-" + FromNat(-i) else FromNat(i)
  }

  /**
    Display of one attempt result (or average, with `isAverage`): nothing
    for a skip, DNF and DNS for those sentinels, else the format's layout.
   */
  function FormatAttemptResult(v: AttemptResult, format: Format, isAverage: bool): (s: seq<char>)
    ensures v == SKIPPED <==> s == ""
    ensures v == DNF ==> s == "DNF"
    ensures v == DNS ==> s == "DNS"
    ensures v > 0 ==> IsDigit(s[0]) || s[0] == '-'
    ensures v > 0 && (format != MultiBlind || Mbld.Decode(v).solved >= 0) ==> IsDigit(s[0])
  {
    if v == SKIPPED then ""
    else if v == DNF then "DNF"
    else if v == DNS then "DNS"
    else
      match format
      case Time => ClockFormat(v)
      case Moves => if isAverage then FromNat(v / 100) + "." + TwoDigits(v % 100) else FromNat(v)
      case MultiBlind =>
        var d := Mbld.Decode(v);
        IntToString(d.solved) + "/" + IntToString(d.attempted) + " " + SecondsClock(d.centiseconds / 100)
  }

  // Reading displayed numbers back.

  /** The length of the run of digits `s` starts with. */
  function DigitRunLength(s: seq<char>): (k: nat)
    ensures k <= |s| && AllDigits(s[..k])
    ensures k < |s| ==> !IsDigit(s[k])
  {
    if |s| == 0 || !IsDigit(s[0]) then 0
    else
      var k := 1 + DigitRunLength(s[1..]);
      assert s[..k] == [s[0]] + s[1..][..k - 1];
      k
  }

  /** The digit runs of `s`, split at every non-digit. */
  function Fields(s: seq<char>): (fs: seq<seq<char>>)
    ensures |fs| >= 1 && forall i | 0 <= i < |fs| :: AllDigits(fs[i])
    decreases |s|
  {
    var k := DigitRunLength(s);
    if k == |s| then [s] else [s[..k]] + Fields(s[k + 1..])
  }

  function Numbers(fs: seq<seq<char>>): (ns: seq<nat>)
    requires forall i | 0 <= i < |fs| :: AllDigits(fs[i])
    ensures |ns| == |fs| && forall i | 0 <= i < |fs| :: ns[i] == ToNat(fs[i])
  {
    if |fs| == 0 then [] else [ToNat(fs[0])] + Numbers(fs[1..])
  }

  /** Units in base 60, most significant first. */
  function Sexagesimal(ns: seq<nat>): nat {
    if |ns| == 0 then 0 else Sexagesimal(ns[..|ns| - 1]) * 60 + ns[|ns| - 1]
  }

  /**
    The value a displayed number stands for: the last field in hundredths,
    the fields before it as hours, minutes and seconds.
   */
  function ReadNumber(s: seq<char>): nat {
    var ns := Numbers(Fields(s));
    ns[|ns| - 1] + 100 * Sexagesimal(ns[..|ns| - 1])
  }

  /** The triple a displayed Multi-Blind result stands for, if it has the shape. */
  function ReadMbld(s: seq<char>): Option<Mbld.Decoded> {
    var ns := Numbers(Fields(s));
    if |ns| < 3 then None
    else Some(Mbld.Decoded(ns[0], ns[1], 100 * Sexagesimal(ns[2..])))
  }

  lemma FieldsOfDigits(d: seq<char>)
    requires AllDigits(d)
    ensures Fields(d) == [d]
  {
    assert d[..|d|] == d;
  }

  lemma {:induction false} DigitRunStopsAtSeparator(d: seq<char>, sep: char, rest: seq<char>)
    requires AllDigits(d) && !IsDigit(sep)
    ensures DigitRunLength(d + [sep] + rest) == |d|
    decreases |d|
  {
    var s := d + [sep] + rest;
    if |d| > 0 {
      assert s[1..] == d[1..] + [sep] + rest;
      DigitRunStopsAtSeparator(d[1..], sep, rest);
    }
  }

  lemma FieldsOfSeparated(d: seq<char>, sep: char, rest: seq<char>)
    requires AllDigits(d) && !IsDigit(sep)
    ensures Fields(d + [sep] + rest) == [d] + Fields(rest)
  {
    var s := d + [sep] + rest;
    DigitRunStopsAtSeparator(d, sep, rest);
    assert s[..|d|] == d && s[|d| + 1..] == rest;
  }

  lemma Regroup(a: seq<char>, sep: char, b: seq<char>, sep2: char, c: seq<char>)
    ensures (a + [sep] + b) + [sep2] + c == a + [sep] + (b + [sep2] + c)
  {
  }

  lemma {:induction false} FieldsOfJoinThen(parts: seq<seq<char>>, sep: char, sep2: char, rest: seq<char>)
    requires |parts| >= 1 && forall i | 0 <= i < |parts| :: AllDigits(parts[i])
    requires !IsDigit(sep) && !IsDigit(sep2)
    ensures Fields(Join(parts, sep) + [sep2] + rest) == parts + Fields(rest)
    decreases |parts|
  {
    if |parts| == 1 {
      FieldsOfSeparated(parts[0], sep2, rest);
    } else {
      var inner := Join(parts[1..], sep);
      var tail := inner + [sep2] + rest;
      assert Join(parts, sep) == parts[0] + [sep] + inner;
      Regroup(parts[0], sep, inner, sep2, rest);
      assert AllDigits(parts[0]);
      FieldsOfSeparated(parts[0], sep, tail);
      assert forall i | 0 <= i < |parts[1..]| :: AllDigits(parts[1..][i]) by {
        forall i | 0 <= i < |parts[1..]| ensures AllDigits(parts[1..][i]) {
          assert parts[1..][i] == parts[i + 1];
        }
      }
      FieldsOfJoinThen(parts[1..], sep, sep2, rest);
      assert [parts[0]] + (parts[1..] + Fields(rest)) == parts + Fields(rest);
    }
  }

  lemma {:induction false} FieldsOfJoin(parts: seq<seq<char>>, sep: char)
    requires |parts| >= 1 && forall i | 0 <= i < |parts| :: AllDigits(parts[i])
    requires !IsDigit(sep)
    ensures Fields(Join(parts, sep)) == parts
    decreases |parts|
  {
    if |parts| == 1 {
      FieldsOfDigits(parts[0]);
    } else {
      FieldsOfSeparated(parts[0], sep, Join(parts[1..], sep));
      FieldsOfJoin(parts[1..], sep);
      assert parts == [parts[0]] + parts[1..];
    }
  }

  lemma SexagesimalOfOne(a: nat)
    ensures Sexagesimal([a]) == a
  {
    assert [a][..0] == [];
  }

  lemma SexagesimalOfTwo(a: nat, b: nat)
    ensures Sexagesimal([a, b]) == a * 60 + b
  {
    assert [a, b][..1] == [a];
    SexagesimalOfOne(a);
  }

  lemma SexagesimalOfThree(a: nat, b: nat, c: nat)
    ensures Sexagesimal([a, b, c]) == (a * 60 + b) * 60 + c
  {
    assert [a, b, c][..2] == [a, b];
    SexagesimalOfTwo(a, b);
  }

  lemma NumbersOfClockFields(seconds: nat)
    ensures Numbers(ClockFields(seconds)) == ClockUnits(seconds)
    ensures Sexagesimal(ClockUnits(seconds)) == seconds
  {
    var minutes := seconds / 60;
    var hours := minutes / 60;
    if hours > 0 {
      ToNatFromNat(hours);
      SexagesimalOfThree(hours, minutes % 60, seconds % 60);
    } else if minutes > 0 {
      ToNatFromNat(minutes);
      SexagesimalOfTwo(minutes, seconds % 60);
    } else {
      ToNatFromNat(seconds);
      SexagesimalOfOne(seconds);
    }
  }

  /** A displayed duration reads back as the duration. */
  lemma ReadClockFormat(centiseconds: nat)
    ensures ReadNumber(ClockFormat(centiseconds)) == centiseconds
  {
    var seconds := centiseconds / 100;
    var fs := ClockFields(seconds);
    FieldsOfJoinThen(fs, ':', '.', TwoDigits(centiseconds % 100));
    FieldsOfDigits(TwoDigits(centiseconds % 100));
    assert ClockFormat(centiseconds) == Join(fs, ':') + ['.'] + TwoDigits(centiseconds % 100);
    var all := fs + [TwoDigits(centiseconds % 100)];
    assert Fields(ClockFormat(centiseconds)) == all;
    NumbersOfClockFields(seconds);
    var ns := Numbers(all);
    assert ns[..|ns| - 1] == Numbers(fs);
  }

  /**
    Every timed or Fewest Moves result reads back from its display as the
    value it shows.
   */
  lemma ReadFormatted(v: AttemptResult, format: Format, isAverage: bool)
    requires v > 0 && format != MultiBlind
    ensures ReadNumber(FormatAttemptResult(v, format, isAverage)) == v
  {
    match format
    case Time =>
      ReadClockFormat(v);
    case Moves =>
      if isAverage {
        var whole, hundredths := FromNat(v / 100), TwoDigits(v % 100);
        FieldsOfSeparated(whole, '.', hundredths);
        FieldsOfDigits(hundredths);
        assert FormatAttemptResult(v, format, isAverage) == whole + ['.'] + hundredths;
        ToNatFromNat(v / 100);
        var ns := Numbers([whole, hundredths]);
        assert ns[..1] == [v / 100];
        SexagesimalOfOne(v / 100);
      } else {
        FieldsOfDigits(FromNat(v));
        ToNatFromNat(v);
        assert Numbers([FromNat(v)])[..0] == [];
      }
  }

  /** The display of a Multi-Blind success, as fields and separators. */
  lemma MbldDisplayLayout(v: AttemptResult, isAverage: bool)
    requires v > 0 && Mbld.Decode(v).solved >= 0
    ensures var d := Mbld.Decode(v);
      FormatAttemptResult(v, MultiBlind, isAverage) ==
        FromNat(d.solved) + ['/'] + (FromNat(d.attempted) + [' '] + Join(ClockFields(d.centiseconds / 100), ':'))
  {
  }

  /** The fields of a Multi-Blind display: solved, attempted, then the clock units. */
  lemma MbldDisplayFields(v: AttemptResult, isAverage: bool)
    requires v > 0 && Mbld.Decode(v).solved >= 0
    ensures var d := Mbld.Decode(v);
      Fields(FormatAttemptResult(v, MultiBlind, isAverage)) ==
        [FromNat(d.solved), FromNat(d.attempted)] + ClockFields(d.centiseconds / 100)
  {
    var d := Mbld.Decode(v);
    MbldDisplayLayout(v, isAverage);
    FieldsOfMbldLayout(d.solved, d.attempted, d.centiseconds / 100);
  }

  /** Two digit runs, each closed by a separator, split off the front of the fields. */
  lemma FieldsOfTwoSeparated(a: seq<char>, sep: char, b: seq<char>, sep2: char, rest: seq<char>)
    requires AllDigits(a) && AllDigits(b) && !IsDigit(sep) && !IsDigit(sep2)
    ensures Fields(a + [sep] + (b + [sep2] + rest)) == [a, b] + Fields(rest)
  {
    FieldsOfSeparated(a, sep, b + [sep2] + rest);
    FieldsOfSeparated(b, sep2, rest);
    assert [a] + ([b] + Fields(rest)) == [a, b] + Fields(rest);
  }

  /** Splitting the Multi-Blind layout at its separators gives back its fields. */
  lemma FieldsOfMbldLayout(solvedCount: nat, attemptedCount: nat, seconds: nat)
    ensures Fields(FromNat(solvedCount) + ['/'] + (FromNat(attemptedCount) + [' '] + Join(ClockFields(seconds), ':'))) ==
      [FromNat(solvedCount), FromNat(attemptedCount)] + ClockFields(seconds)
  {
    var clock := ClockFields(seconds);
    assert !IsDigit('/') && !IsDigit(' ') && !IsDigit(':');
    FieldsOfTwoSeparated(FromNat(solvedCount), '/', FromNat(attemptedCount), ' ', Join(clock, ':'));
    FieldsOfJoin(clock, ':');
  }

  /** The Multi-Blind layout reads back as the triple it was drawn from. */
  lemma ReadMbldLayout(solvedCount: nat, attemptedCount: nat, seconds: nat)
    ensures ReadMbld(FromNat(solvedCount) + ['/'] + (FromNat(attemptedCount) + [' '] + Join(ClockFields(seconds), ':'))) ==
      Some(Mbld.Decoded(solvedCount, attemptedCount, 100 * seconds))
  {
    var clock := ClockFields(seconds);
    var all := [FromNat(solvedCount), FromNat(attemptedCount)] + clock;
    FieldsOfMbldLayout(solvedCount, attemptedCount, seconds);
    var ns := Numbers(all);
    ToNatFromNat(solvedCount);
    ToNatFromNat(attemptedCount);
    NumbersOfClockFields(seconds);
    assert ns[2..] == Numbers(clock);
    assert ns[0] == solvedCount && ns[1] == attemptedCount;
  }

  /**
    A Multi-Blind result reads back from its display as its decoded triple
    (the display shows whole seconds, which is all the code stores).
   */
  lemma ReadFormattedMbld(v: AttemptResult, isAverage: bool)
    requires v > 0 && Mbld.Decode(v).solved >= 0
    ensures ReadMbld(FormatAttemptResult(v, MultiBlind, isAverage)) == Some(Mbld.Decode(v))
  {
    var d := Mbld.Decode(v);
    var seconds := d.centiseconds / 100;
    assert d.centiseconds == 100 * seconds;
    MbldDisplayLayout(v, isAverage);
    ReadMbldLayout(d.solved, d.attempted, seconds);
  }
}
