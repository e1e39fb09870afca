/** The date window and its navigation, from src/HabitTracker.tsx: the tracker shows 14
    consecutive days around an anchor (`startDate`) and moves the anchor two weeks at a
    time or back to today. */
module HabitTracker {
  import opened Calendar

  /** Days shown before the anchor (`[...Array(3)]`). */
  const DaysBefore: nat := 3
  /** The anchor and the days after it (`[...Array(11)]`). */
  const DaysFrom: nat := 11
  /** How far one step of navigation moves the anchor. */
  const Step: int := 14

  datatype Direction = Back | Forward | Today

  /** `updateDates`: the three days before the anchor, then the anchor and the ten days
      after it, each at the anchor's time of day. */
  function Window(anchor: Timestamp): (r: seq<Timestamp>)
    ensures |r| == DaysBefore + DaysFrom == 14
    ensures forall k :: 0 <= k < |r| ==> r[k] == AddDays(anchor, k - DaysBefore)
  {
    var before := seq(DaysBefore, i => AddDays(anchor, -(DaysBefore - i)));
    var from := seq(DaysFrom, i => AddDays(anchor, i));
    before + from
  }

  /** The first three entries are the three days before the anchor, and the anchor is
      at index 3. */
  lemma WindowAroundAnchor(anchor: Timestamp)
    ensures Window(anchor)[..3] == [AddDays(anchor, -3), AddDays(anchor, -2), AddDays(anchor, -1)]
    ensures Window(anchor)[3] == anchor
    ensures Window(anchor)[13] == AddDays(anchor, 10)
  {
  }

  /** The window is gap-free and strictly ascending: each entry is the day after the one
      before it, at the same time of day; so no day appears twice. */
  lemma WindowConsecutive(anchor: Timestamp)
    ensures forall k :: 0 <= k < 13 ==>
      Window(anchor)[k + 1].day == Window(anchor)[k].day + 1
      && Window(anchor)[k + 1].time == Window(anchor)[k].time
    ensures forall i, j :: 0 <= i < j < 14 ==> Window(anchor)[i].day < Window(anchor)[j].day
  {
  }

  /** `navigateDates`' choice of the new anchor: today, or two weeks back or ahead. */
  function NextAnchor(anchor: Timestamp, direction: Direction, now: Timestamp): (r: Timestamp)
    ensures direction == Today ==> r == now
    ensures direction == Back ==> r.day == anchor.day - 14 && r.time == anchor.time
    ensures direction == Forward ==> r.day == anchor.day + 14 && r.time == anchor.time
  {
    match direction
    case Today => now
    case Back => AddDays(anchor, -Step)
    case Forward => AddDays(anchor, Step)
  }

  /** Forward then back, or back then forward, returns to the original anchor. */
  lemma NavigateRoundTrip(anchor: Timestamp, now1: Timestamp, now2: Timestamp)
    ensures NextAnchor(NextAnchor(anchor, Forward, now1), Back, now2) == anchor
    ensures NextAnchor(NextAnchor(anchor, Back, now1), Forward, now2) == anchor
  {
  }

  /** Today ignores the previous anchor. */
  lemma NavigateTodayForgetsAnchor(a1: Timestamp, a2: Timestamp, now: Timestamp)
    ensures NextAnchor(a1, Today, now) == NextAnchor(a2, Today, now) == now
  {
  }

  /** Moving the anchor by a step moves every entry of the window by the same step. */
  lemma WindowShifts(anchor: Timestamp, now: Timestamp)
    ensures forall k :: 0 <= k < 14 ==>
      Window(NextAnchor(anchor, Forward, now))[k] == AddDays(Window(anchor)[k], 14)
      && Window(NextAnchor(anchor, Back, now))[k] == AddDays(Window(anchor)[k], -14)
  {
  }

  /** The tracker's `startDate` and `dates` state. The effect that recomputes `dates`
      whenever `startDate` changes (lines 11-13 of the source) runs at the end of the
      constructor and of `NavigateDates`. */
  class Tracker {
    var startDate: Timestamp
    var dates: seq<Timestamp>

    /** The window always shows the days around the current anchor. */
    predicate Valid()
      reads this
    {
      dates == Window(startDate)
    }

    /** Mounting: the anchor is now, and the window is built from it. */
    constructor (now: Timestamp)
      ensures Valid() && startDate == now
    {
      startDate := now;
      dates := [];
      new;
      UpdateDates();
    }

    /** `updateDates`: rebuilds the window from the anchor. */
    method UpdateDates()
      modifies this
      ensures startDate == old(startDate)
      ensures dates == Window(startDate)
    {
      var currentDate := startDate;
      var previousThreeDays := seq(DaysBefore, i => AddDays(currentDate, -(DaysBefore - i)));
      var nextTenDays := seq(DaysFrom, i => AddDays(currentDate, i));
      dates := previousThreeDays + nextTenDays;
      assert forall k :: 0 <= k < |dates| ==> dates[k] == Window(currentDate)[k];
    }

    /** `navigateDates`: moves the anchor and rebuilds the window. */
    method NavigateDates(direction: Direction, now: Timestamp)
      modifies this
      ensures startDate == NextAnchor(old(startDate), direction, now)
      ensures Valid()
    {
      var newStartDate: Timestamp;
      if direction == Today {
        newStartDate := now;
      } else {
        newStartDate := AddDays(startDate, if direction == Back then -Step else Step);
      }
      startDate := newStartDate;
      UpdateDates();
    }
  }
}
