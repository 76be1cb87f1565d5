/** Formatting a travel time given in minutes as "H hours M minutes S
    seconds": the numbers it computes and the segments it keeps. */
module Duration {
  import opened Numbers

  datatype Unit = HoursUnit | MinutesUnit | SecondsUnit

  /** A count as printed: a whole number, or NaN when the time was NaN. */
  datatype Count = Whole(n: int) | NotANumber

  /** One "<count> <unit>" segment of the formatted time. */
  datatype Segment = Segment(count: Count, unit: Unit)

  /** The three numbers computed from a finite time in minutes. */
  datatype Clock = Clock(hours: int, minutes: int, seconds: int)

  /** Position of a unit in the text: hours, then minutes, then seconds. */
  function Rank(u: Unit): nat {
    match u
    case HoursUnit => 0
    case MinutesUnit => 1
    case SecondsUnit => 2
  }

  /** Whole hours are the floor of t / 60; minutes the floor of `t % 60`;
      seconds `Math.round` of the fractional minute times 60. The seconds
      are not carried into the minutes, so they can reach 60. */
  function Split(t: real): (c: Clock)
    ensures 0 <= c.seconds <= 60
    ensures 0.0 <= t ==> 0 <= c.hours && 0 <= c.minutes < 60
    ensures t < 0.0 ==> c.hours < 0 && -60 <= c.minutes <= 0
  {
    Clock((t / 60.0).Floor, Mod60(t).Floor, Round((t - t.Floor as real) * 60.0))
  }

  /** The segments kept: hours only when positive, minutes when positive or
      when hours are shown, seconds always, in that order. */
  function Layout(c: Clock): (segs: seq<Segment>)
    ensures 1 <= |segs| <= 3
    ensures segs[|segs| - 1] == Segment(Whole(c.seconds), SecondsUnit)
    ensures Segment(Whole(c.hours), HoursUnit) in segs <==> c.hours > 0
    ensures Segment(Whole(c.minutes), MinutesUnit) in segs <==> c.minutes > 0 || c.hours > 0
    ensures forall s | s in segs ::
      s == Segment(Whole(c.hours), HoursUnit) ||
      s == Segment(Whole(c.minutes), MinutesUnit) ||
      s == Segment(Whole(c.seconds), SecondsUnit)
    ensures forall i, j | 0 <= i < j < |segs| :: Rank(segs[i].unit) < Rank(segs[j].unit)
  {
    (if c.hours > 0 then [Segment(Whole(c.hours), HoursUnit)] else [])
    + (if c.minutes > 0 || c.hours > 0 then [Segment(Whole(c.minutes), MinutesUnit)] else [])
    + [Segment(Whole(c.seconds), SecondsUnit)]
  }

  /** Seconds last, and only last: the shape every formatted time has. */
  predicate SecondsLast(segs: seq<Segment>) {
    && |segs| > 0
    && segs[|segs| - 1].unit == SecondsUnit
    && forall i | 0 <= i < |segs| - 1 :: segs[i].unit != SecondsUnit
  }

  /** The segments of a formatted time. A NaN time fails every `> 0` test
      and prints only "NaN seconds"; a number prints whole counts only. */
  function FormatTime(t: Num): (segs: seq<Segment>)
    ensures SecondsLast(segs)
    ensures t.Fin? ==> forall i | 0 <= i < |segs| :: segs[i].count.Whole?
    ensures t == NaN ==> segs == [Segment(NotANumber, SecondsUnit)]
  {
    match t
    case NaN => [Segment(NotANumber, SecondsUnit)]
    case Fin(m) =>
      var segs := Layout(Split(m));
      assert forall i | 0 <= i < |segs| - 1 :: segs[i].unit != SecondsUnit by {
        forall i | 0 <= i < |segs| - 1
          ensures segs[i].unit != SecondsUnit
        {
          assert Rank(segs[i].unit) < Rank(segs[|segs| - 1].unit);
        }
      }
      segs
  }

  /** The whole count shown for a unit, 0 when no segment shows it. */
  function CountOf(segs: seq<Segment>, u: Unit): int {
    if |segs| == 0 then 0
    else if segs[0].unit == u && segs[0].count.Whole? then segs[0].count.n
    else CountOf(segs[1..], u)
  }

  /** Reads the three numbers back from the segments. */
  function ClockOf(segs: seq<Segment>): Clock {
    Clock(CountOf(segs, HoursUnit), CountOf(segs, MinutesUnit), CountOf(segs, SecondsUnit))
  }

  function TotalSeconds(c: Clock): int {
    3600 * c.hours + 60 * c.minutes + c.seconds
  }

  /** For a non-negative time, hours and minutes together are the whole
      minutes, and hours, minutes and seconds together are the time rounded
      to the nearest second. */
  lemma SplitReassembles(t: real)
    requires 0.0 <= t
    ensures 60 * Split(t).hours + Split(t).minutes == t.Floor
    ensures TotalSeconds(Split(t)) == Round(60.0 * t)
  {
    var c := Split(t);
    var h := c.hours;
    assert Mod60(t) == t - 60.0 * h as real;
    FloorShift(t, -60 * h);
    var f := t.Floor;
    var frac := t - f as real;
    assert 60.0 * t + 0.5 == (frac * 60.0 + 0.5) + (60 * f) as real;
    FloorShift(frac * 60.0 + 0.5, 60 * f);
  }

  /** For a non-negative time no information is dropped: the numbers read
      back from the segments are the numbers computed, and they add up to
      the time rounded to the nearest second. */
  lemma FormatTimeKeepsEverything(t: real)
    requires 0.0 <= t
    ensures ClockOf(FormatTime(Fin(t))) == Split(t)
    ensures TotalSeconds(ClockOf(FormatTime(Fin(t)))) == Round(60.0 * t)
  {
    SplitReassembles(t);
    var c := Split(t);
    var segs := Layout(c);
    var last := [Segment(Whole(c.seconds), SecondsUnit)];
    assert CountOf(last, SecondsUnit) == c.seconds;
    assert CountOf(last, HoursUnit) == 0 && CountOf(last, MinutesUnit) == 0 by {
      assert last[1..] == [];
    }
    if c.hours > 0 {
      var tail := [Segment(Whole(c.minutes), MinutesUnit)] + last;
      assert segs == [Segment(Whole(c.hours), HoursUnit)] + tail;
      assert segs[1..] == tail && tail[1..] == last;
      assert CountOf(tail, SecondsUnit) == c.seconds;
      assert CountOf(tail, MinutesUnit) == c.minutes;
      assert CountOf(segs, HoursUnit) == c.hours;
    } else if c.minutes > 0 {
      assert segs == [Segment(Whole(c.minutes), MinutesUnit)] + last;
      assert segs[1..] == last;
    } else {
      assert segs == [Segment(Whole(c.seconds), SecondsUnit)];
    }
  }

  /** A negative time shows neither hours nor minutes: only its seconds. */
  lemma NegativeTimeShowsOnlySeconds(t: real)
    requires t < 0.0
    ensures FormatTime(Fin(t)) == [Segment(Whole(Split(t).seconds), SecondsUnit)]
  {
  }

  /** No time at all gives "0 seconds". */
  lemma ZeroMinutesExample()
    ensures FormatTime(Fin(0.0)) == [Segment(Whole(0), SecondsUnit)]
  {
    assert Split(0.0) == Clock(0, 0, 0);
  }

  /** 90 minutes give "1 hours 30 minutes 0 seconds". */
  lemma NinetyMinutesExample()
    ensures FormatTime(Fin(90.0)) ==
      [Segment(Whole(1), HoursUnit), Segment(Whole(30), MinutesUnit), Segment(Whole(0), SecondsUnit)]
  {
    assert Trunc(1.5) == 1;
    assert Mod60(90.0) == 30.0;
    var c := Split(90.0);
    assert c == Clock(1, 30, 0);
    assert Layout(c) ==
      [Segment(Whole(1), HoursUnit)] + [Segment(Whole(30), MinutesUnit)] + [Segment(Whole(0), SecondsUnit)];
  }

  /** The seconds are not carried: 119/120 of a minute (59.5 seconds) shows
      as "60 seconds", and an hour more as "1 hours 0 minutes 60 seconds". */
  lemma SecondsCanReachSixty()
    ensures FormatTime(Fin(119.0 / 120.0)) == [Segment(Whole(60), SecondsUnit)]
    ensures FormatTime(Fin(60.0 + 119.0 / 120.0)) ==
      [Segment(Whole(1), HoursUnit), Segment(Whole(0), MinutesUnit), Segment(Whole(60), SecondsUnit)]
  {
    SplitJustUnderAMinute();
    SplitJustUnderSixtyOneMinutes();
    LayoutOneHourSixtySeconds();
  }

  lemma LayoutOneHourSixtySeconds()
    ensures Layout(Clock(1, 0, 60)) ==
      [Segment(Whole(1), HoursUnit), Segment(Whole(0), MinutesUnit), Segment(Whole(60), SecondsUnit)]
  {
    assert Layout(Clock(1, 0, 60)) ==
      [Segment(Whole(1), HoursUnit)] + [Segment(Whole(0), MinutesUnit)] + [Segment(Whole(60), SecondsUnit)];
  }

  lemma SplitJustUnderAMinute()
    ensures Split(119.0 / 120.0) == Clock(0, 0, 60)
  {
    var t := 119.0 / 120.0;
    assert t.Floor == 0;
    assert (t / 60.0).Floor == 0;
    assert Trunc(t / 60.0) == 0;
    assert Mod60(t) == t;
    assert Round(t * 60.0) == 60 by { assert t * 60.0 + 0.5 == 60.0; }
  }

  lemma SplitJustUnderSixtyOneMinutes()
    ensures Split(60.0 + 119.0 / 120.0) == Clock(1, 0, 60)
  {
    var t := 119.0 / 120.0;
    var u := 60.0 + t;
    assert u.Floor == 60;
    assert (u / 60.0).Floor == 1;
    assert Trunc(u / 60.0) == 1;
    assert Mod60(u) == t;
    assert t.Floor == 0;
    assert (u - u.Floor as real) * 60.0 + 0.5 == 60.0;
  }
}
