/**
  `generar_fechas(start, end)`: every date from `start` through `end`, one day
  apart, in ascending order.
 */
module DateSequence {
  import opened Calendar

  /**
    The dates the generator yields: `ord(end) - ord(start) + 1` of them, none
    when `start` is after `end`, the `i`-th being the valid date `i` days after
    `start`. After yielding `date.max` it stops (Python raises there, which
    `GenerateDates` reports separately).
   */
  function DateRange(start: Date, end: Date): (r: seq<Date>)
    requires Valid(start) && Valid(end)
    ensures |r| == if Before(end, start) then 0 else ToOrdinal(end) - ToOrdinal(start) + 1
    ensures forall i :: 0 <= i < |r| ==> Valid(r[i]) && ToOrdinal(r[i]) == ToOrdinal(start) + i
    decreases ToOrdinal(end) - ToOrdinal(start)
  {
    BeforeIffOrdinal(end, start);
    if Before(end, start) then []
    else if start == MaxDate then
      MaxDateIsLast(end);
      BeforeTotal(start, end);
      [start]
    else
      SuccStep(start);
      var next := Succ(start);
      BeforeIffOrdinal(end, next);
      [start] + DateRange(next, end)
  }

  /** The range starting at a date not after `end` begins with that date and continues from the next one. */
  lemma RangeUnfold(start: Date, end: Date)
    requires Valid(start) && Valid(end) && !Before(end, start) && start != MaxDate
    ensures Valid(Succ(start))
    ensures DateRange(start, end) == [start] + DateRange(Succ(start), end)
  {
    SuccStep(start);
  }

  /** The range is non-empty exactly when `start <= end`, and then it runs from `start` to `end`. */
  lemma RangeEnds(start: Date, end: Date)
    requires Valid(start) && Valid(end)
    ensures |DateRange(start, end)| > 0 <==> !Before(end, start)
    ensures !Before(end, start) ==> DateRange(start, end)[0] == start
    ensures !Before(end, start) ==> DateRange(start, end)[|DateRange(start, end)| - 1] == end
  {
    if !Before(end, start) {
      var r := DateRange(start, end);
      BeforeIffOrdinal(end, start);
      assert |r| == ToOrdinal(end) - ToOrdinal(start) + 1;
      assert r[0] == start;
      var last := r[|r| - 1];
      assert Valid(last) && ToOrdinal(last) == ToOrdinal(end);
      OrdinalInjective(last, end);
    }
  }

  /** Each date of the range is the day after the one before it. */
  lemma RangeConsecutive(start: Date, end: Date)
    requires Valid(start) && Valid(end)
    ensures forall i :: 0 <= i < |DateRange(start, end)| - 1 ==>
      DateRange(start, end)[i] != MaxDate && DateRange(start, end)[i + 1] == Succ(DateRange(start, end)[i])
  {
    var r := DateRange(start, end);
    forall i | 0 <= i < |r| - 1
      ensures r[i] != MaxDate && r[i + 1] == Succ(r[i])
    {
      var p, q := r[i], r[i + 1];
      assert ToOrdinal(p) < ToOrdinal(q);
      BeforeIffOrdinal(p, q);
      MaxDateIsLast(q);
      SuccStep(p);
      SuccIsNextOrdinal(p, q);
    }
  }

  /** The range is strictly ascending, so no date appears twice. */
  lemma RangeAscending(start: Date, end: Date)
    requires Valid(start) && Valid(end)
    ensures forall i, j :: 0 <= i < j < |DateRange(start, end)| ==> Before(DateRange(start, end)[i], DateRange(start, end)[j])
  {
    var r := DateRange(start, end);
    forall i, j | 0 <= i < j < |r|
      ensures Before(r[i], r[j])
    {
      BeforeIffOrdinal(r[i], r[j]);
    }
  }

  /** A date is in the range exactly when it is a valid date between `start` and `end` inclusive. */
  lemma RangeMembers(start: Date, end: Date, d: Date)
    requires Valid(start) && Valid(end)
    ensures d in DateRange(start, end) <==> Valid(d) && !Before(d, start) && !Before(end, d)
  {
    var r := DateRange(start, end);
    if d in r {
      var i :| 0 <= i < |r| && r[i] == d;
      BeforeIffOrdinal(d, start);
      BeforeIffOrdinal(end, d);
    } else if Valid(d) && !Before(d, start) && !Before(end, d) {
      BeforeIffOrdinal(d, start);
      BeforeIffOrdinal(end, d);
      BeforeIffOrdinal(end, start);
      var i := ToOrdinal(d) - ToOrdinal(start);
      assert 0 <= i < |r|;
      OrdinalInjective(r[i], d);
      assert false;
    }
  }

  /** `start == end` yields exactly that one date. */
  lemma RangeSingleton(d: Date)
    requires Valid(d)
    ensures DateRange(d, d) == [d]
  {
    RangeEnds(d, d);
    BeforeTotal(d, d);
  }

  /** A start after the end yields nothing. */
  lemma RangeEmpty(start: Date, end: Date)
    requires Valid(start) && Valid(end) && Before(end, start)
    ensures DateRange(start, end) == []
  {
  }

  /** Along the range the weekday advances by one, modulo seven, per date. */
  lemma RangeWeekdays(start: Date, end: Date)
    requires Valid(start) && Valid(end)
    ensures forall i :: 0 <= i < |DateRange(start, end)| ==> Weekday(DateRange(start, end)[i]) == (Weekday(start) + i) % 7
  {
    var r := DateRange(start, end);
    forall i | 0 <= i < |r|
      ensures Weekday(r[i]) == (Weekday(start) + i) % 7
    {
      WeekdayAfter(start, r[i], i);
    }
  }

  /** A date `i` days after `d` falls `i` weekdays later, modulo seven. */
  lemma WeekdayAfter(d: Date, e: Date, i: int)
    requires Valid(d) && Valid(e) && ToOrdinal(e) == ToOrdinal(d) + i
    ensures Weekday(e) == (Weekday(d) + i) % 7
  {
    ModSevenShift(ToOrdinal(d) + 6, i);
  }

  lemma ModSevenShift(n: int, i: int)
    ensures (n + i) % 7 == (n % 7 + i) % 7
  {
  }

  /** The default range, 2025-09-08 to 2026-01-03, has 118 dates. */
  lemma DefaultRangeLength(start: Date, end: Date)
    requires start == Date(2025, 9, 8) && end == Date(2026, 1, 3)
    ensures |DateRange(start, end)| == 118
  {
    assert Valid(start) && Valid(end) && !Before(end, start);
    assert ToOrdinal(end) - ToOrdinal(start) == 117;
  }

  /**
    `generar_fechas` as a loop: the dates it yields, and whether advancing past
    the last one overflowed, which happens exactly when the range is non-empty
    and ends at `date.max`.
   */
  method GenerateDates(start: Date, end: Date) returns (dates: seq<Date>, overflow: bool)
    requires Valid(start) && Valid(end)
    ensures dates == DateRange(start, end)
    ensures overflow <==> !Before(end, start) && end == MaxDate
  {
    dates := [];
    overflow := false;
    var current := start;
    while !Before(end, current)
      invariant Valid(current)
      invariant dates + DateRange(current, end) == DateRange(start, end)
      invariant dates != [] ==> !Before(end, start)
      invariant dates == [] ==> current == start
      decreases ToOrdinal(end) - ToOrdinal(current)
    {
      GenerateStep(start, end, current, dates);
      dates := dates + [current];
      if current == MaxDate {
        overflow := true;
        return;
      }
      current := Succ(current);
    }
    if end == MaxDate {
      MaxDateIsLast(current);
    }
  }

  /**
    One pass of the generator's loop: `current` is yielded, and either it is
    `date.max` and so the last date of the range, or the loop goes on from
    the next day, which is closer to `end`.
   */
  lemma GenerateStep(start: Date, end: Date, current: Date, dates: seq<Date>)
    requires Valid(start) && Valid(end) && Valid(current) && !Before(end, current)
    requires dates + DateRange(current, end) == DateRange(start, end)
    requires dates == [] ==> current == start
    ensures !Before(end, start)
    ensures current == MaxDate ==> end == MaxDate && dates + [current] == DateRange(start, end)
    ensures current != MaxDate ==>
      && Valid(Succ(current))
      && (dates + [current]) + DateRange(Succ(current), end) == DateRange(start, end)
      && 0 <= ToOrdinal(end) - ToOrdinal(current)
      && ToOrdinal(end) - ToOrdinal(Succ(current)) < ToOrdinal(end) - ToOrdinal(current)
  {
    BeforeIffOrdinal(end, current);
    if current == MaxDate {
      MaxDateIsLast(end);
      BeforeTotal(end, current);
      RangeSingleton(current);
    } else {
      RangeUnfold(current, end);
      SuccStep(current);
      AppendOne(dates, current, DateRange(Succ(current), end));
    }
    if dates != [] {
      assert DateRange(start, end) != [];
      RangeEnds(start, end);
    }
  }

  lemma AppendOne<T>(a: seq<T>, x: T, b: seq<T>)
    ensures (a + [x]) + b == a + ([x] + b)
  {
  }
}
