/** The habit store: the `Habit` record, the due-date scheduler and the four mutators
    of src/HabitContext.tsx. Each mutator replaces the whole `habits` sequence with one
    built by a map, a filter or a spread; the pure builders are the functions below and
    `HabitStore` is the object whose field they replace. */
module HabitContext {
  import opened Text
  import opened Calendar

  /** One tracked habit. `completedDates` keeps insertion order; `dueDate` is a full
      timestamp. */
  datatype Habit = Habit(
    id: int,
    name: string,
    url: string,
    completedDates: seq<Day>,
    dueDate: Timestamp,
    completionCount: nat)

  predicate NoDuplicates(s: seq<Day>) {
    forall i, j :: 0 <= i < j < |s| ==> s[i] != s[j]
  }

  /** The invariant the store means to keep for every habit: the count is the number of
      completed days, and no day is recorded twice. */
  predicate Consistent(h: Habit) {
    h.completionCount == |h.completedDates| && NoDuplicates(h.completedDates)
  }

  predicate UniqueIds(hs: seq<Habit>) {
    forall i, j :: 0 <= i < j < |hs| ==> hs[i].id != hs[j].id
  }

  /** The invariant of the whole collection: ids are distinct and every habit is
      consistent. */
  predicate StoreInvariant(hs: seq<Habit>) {
    UniqueIds(hs) && forall h :: h in hs ==> Consistent(h)
  }

  // ---------------------------------------------------------------------------
  // Due-date scheduler (calculateNextDueDate)

  /** The date the backoff counts from: the start of the last day in `dates`, or now
      when there is none. */
  function DueBase(dates: seq<Day>, now: Timestamp): (r: Timestamp)
    ensures dates == [] ==> r == now
    ensures dates != [] ==> r.day == dates[|dates| - 1] && r.time == 0
  {
    if dates == [] then now else StartOfDay(dates[|dates| - 1])
  }

  /** `calculateNextDueDate`: due now while the count is zero; otherwise a strictly later
      day than the base, at the base's time of day. */
  function NextDueDate(h: Habit, now: Timestamp): (r: Timestamp)
    ensures h.completionCount == 0 ==> r == now
    ensures h.completionCount > 0 ==>
      r.day > DueBase(h.completedDates, now).day && r.time == DueBase(h.completedDates, now).time
  {
    if h.completionCount == 0 then
      now
    else
      AddDays(DueBase(h.completedDates, now), Pow2(h.completionCount - 1))
  }

  /** Each further completion doubles the backoff interval. */
  lemma BackoffDoubles(h: Habit, now: Timestamp)
    requires h.completionCount > 0
    ensures var base := DueBase(h.completedDates, now);
      NextDueDate(h.(completionCount := h.completionCount + 1), now).day - base.day
        == 2 * (NextDueDate(h, now).day - base.day)
  {
  }

  /** The first four intervals are 1, 2, 4 and 8 days. */
  lemma BackoffFirstIntervals(h: Habit, now: Timestamp)
    ensures var base := DueBase(h.completedDates, now).day;
      && NextDueDate(h.(completionCount := 1), now).day == base + 1
      && NextDueDate(h.(completionCount := 2), now).day == base + 2
      && NextDueDate(h.(completionCount := 3), now).day == base + 4
      && NextDueDate(h.(completionCount := 4), now).day == base + 8
  {
  }

  // ---------------------------------------------------------------------------
  // Completion toggle

  /** `completedDates.filter(d => d !== day)`: every occurrence of `day` removed, the
      rest kept. */
  function Without(s: seq<Day>, day: Day): (r: seq<Day>)
    ensures |r| <= |s|
    ensures forall d :: d in r <==> d in s && d != day
    ensures day !in s ==> r == s
  {
    if s == [] then []
    else if s[0] == day then Without(s[1..], day)
    else [s[0]] + Without(s[1..], day)
  }

  lemma NoDuplicatesCons(x: Day, s: seq<Day>)
    requires x !in s && NoDuplicates(s)
    ensures NoDuplicates([x] + s)
  {
    var t := [x] + s;
    forall i, j | 0 <= i < j < |t| ensures t[i] != t[j] {
      if i == 0 {
        assert t[j] == s[j - 1];
      }
    }
  }

  lemma NoDuplicatesSnoc(s: seq<Day>, x: Day)
    requires x !in s && NoDuplicates(s)
    ensures NoDuplicates(s + [x])
  {
  }

  /** Removing a day that occurs once shortens a duplicate-free list by exactly one and
      keeps it duplicate-free. */
  lemma {:induction false} WithoutDistinct(s: seq<Day>, day: Day)
    requires NoDuplicates(s) && day in s
    ensures |Without(s, day)| == |s| - 1
    ensures NoDuplicates(Without(s, day))
  {
    if s[0] == day {
      assert day !in s[1..] by {
        forall k | 0 <= k < |s| - 1 ensures s[1..][k] != day {
          assert s[1..][k] == s[k + 1];
        }
      }
    } else {
      assert NoDuplicates(s[1..]);
      WithoutDistinct(s[1..], day);
      assert s[0] !in s[1..] by {
        forall k | 0 <= k < |s| - 1 ensures s[1..][k] != s[0] {
          assert s[1..][k] == s[k + 1];
        }
      }
      NoDuplicatesCons(s[0], Without(s[1..], day));
    }
  }

  /** The filter keeps the order of the days it keeps: it distributes over
      concatenation. */
  lemma {:induction false} WithoutConcat(a: seq<Day>, b: seq<Day>, day: Day)
    ensures Without(a + b, day) == Without(a, day) + Without(b, day)
  {
    if a == [] {
      assert a + b == b;
    } else {
      assert (a + b)[1..] == a[1..] + b;
      WithoutConcat(a[1..], b, day);
    }
  }

  /** Un-completing any day but the last keeps the last completed day, the base the
      scheduler reads next. */
  lemma WithoutKeepsLast(s: seq<Day>, day: Day)
    requires s != [] && s[|s| - 1] != day
    ensures var r := Without(s, day);
      r != [] && r[|r| - 1] == s[|s| - 1]
  {
    var last := s[|s| - 1];
    assert s == s[..|s| - 1] + [last];
    WithoutConcat(s[..|s| - 1], [last], day);
    assert Without([last], day) == [last] by {
      assert [last][1..] == [];
    }
  }

  /** Removing a day just appended gives back the list it was appended to. */
  lemma {:induction false} WithoutAppended(s: seq<Day>, day: Day)
    requires day !in s
    ensures Without(s + [day], day) == s
  {
    if s == [] {
      assert Without([day][1..], day) == [];
    } else {
      assert (s + [day])[1..] == s[1..] + [day];
      WithoutAppended(s[1..], day);
    }
  }

  /** The body of the callback `toggleHabitCompletion` maps over the habits: the day is
      removed when present (count down, floored at 0) and appended otherwise (count
      up); the due date is then recomputed from the NEW count but the habit's OLD
      `completedDates`. Identity, name and url are kept. */
  function Toggled(h: Habit, day: Day, now: Timestamp): (r: Habit)
    ensures r.id == h.id && r.name == h.name && r.url == h.url
    ensures day in r.completedDates <==> day !in h.completedDates
    ensures forall d :: d != day ==> (d in r.completedDates <==> d in h.completedDates)
    ensures day in h.completedDates ==>
      && r.completedDates == Without(h.completedDates, day)
      && r.completionCount == (if h.completionCount > 0 then h.completionCount - 1 else 0)
    ensures day !in h.completedDates ==>
      r.completedDates == h.completedDates + [day] && r.completionCount == h.completionCount + 1
    ensures r.dueDate == NextDueDate(h.(completionCount := r.completionCount), now)
  {
    var count := if day in h.completedDates then
      (if h.completionCount > 0 then h.completionCount - 1 else 0)
    else
      h.completionCount + 1;
    var dates := if day in h.completedDates then Without(h.completedDates, day)
      else h.completedDates + [day];
    h.(completedDates := dates, completionCount := count,
       dueDate := NextDueDate(h.(completionCount := count), now))
  }

  /** The callback of `toggleHabitCompletion` as the source writes it: local variables
      reassigned step by step. The day toggled is the calendar day of `date`. */
  method ToggleEntry(habit: Habit, date: Timestamp, now: Timestamp) returns (r: Habit)
    ensures r == Toggled(habit, date.day, now)
  {
    var dateString := date.day;
    var completedDates := habit.completedDates;
    var completionCount := habit.completionCount;
    var dueDate := habit.dueDate;
    if dateString in completedDates {
      completedDates := Without(completedDates, dateString);
      completionCount := if completionCount > 0 then completionCount - 1 else 0;
    } else {
      completedDates := completedDates + [dateString];
      completionCount := completionCount + 1;
    }
    dueDate := NextDueDate(habit.(completionCount := completionCount), now);
    r := habit.(completedDates := completedDates, completionCount := completionCount, dueDate := dueDate);
  }

  /** A toggle keeps a consistent habit consistent. */
  lemma ToggleKeepsConsistent(h: Habit, day: Day, now: Timestamp)
    requires Consistent(h)
    ensures Consistent(Toggled(h, day, now))
  {
    if day in h.completedDates {
      WithoutDistinct(h.completedDates, day);
    } else {
      NoDuplicatesSnoc(h.completedDates, day);
    }
  }

  /** Toggling an absent day twice restores the exact list and the count. */
  lemma ToggleTwiceAbsent(h: Habit, day: Day, now1: Timestamp, now2: Timestamp)
    requires day !in h.completedDates
    ensures var r := Toggled(Toggled(h, day, now1), day, now2);
      r.completedDates == h.completedDates && r.completionCount == h.completionCount
      && r.id == h.id && r.name == h.name && r.url == h.url
  {
    WithoutAppended(h.completedDates, day);
  }

  /** Toggling a present day twice on a consistent habit restores the count and the set
      of completed days; the day itself moves to the end of the list. */
  lemma ToggleTwicePresent(h: Habit, day: Day, now1: Timestamp, now2: Timestamp)
    requires Consistent(h) && day in h.completedDates
    ensures var r := Toggled(Toggled(h, day, now1), day, now2);
      && r.completedDates == Without(h.completedDates, day) + [day]
      && r.completionCount == h.completionCount
      && (forall d :: d in r.completedDates <==> d in h.completedDates)
      && Consistent(r)
  {
    ToggleKeepsConsistent(h, day, now1);
    ToggleKeepsConsistent(Toggled(h, day, now1), day, now2);
    WithoutDistinct(h.completedDates, day);
  }

  /** Completing a new day on a habit that already has completions schedules from the
      day completed last BEFORE this toggle (at the start of that day), not from the day
      just completed: the due date is never `day` plus the new interval. */
  lemma ToggleDueFromPreviousLast(h: Habit, day: Day, now: Timestamp)
    requires day !in h.completedDates && h.completedDates != []
    ensures var last := h.completedDates[|h.completedDates| - 1];
      var due := Toggled(h, day, now).dueDate;
      due == Timestamp(last + Pow2(h.completionCount), 0)
      && due.day != day + Pow2(h.completionCount)
  {
  }

  /** Where the model and JavaScript part: completing a day when the count is 27 or
      more, on a habit whose base is not before the epoch, yields a due day past the
      last day a JavaScript Date can hold. In the source `toISOString` then throws, so
      that toggle changes nothing; the model has no upper bound on days. */
  lemma ToggleBeyondDateRange(h: Habit, day: Day, now: Timestamp)
    requires day !in h.completedDates && h.completionCount >= 27
    requires DueBase(h.completedDates, now).day >= 0
    ensures Toggled(h, day, now).dueDate.day > MaxDateDay
  {
    Pow2Of27();
    Pow2Sum(27, h.completionCount - 27);
  }

  /** The first completion of a fresh habit makes it due one day after now. */
  lemma FirstCompletionDueTomorrow(h: Habit, day: Day, now: Timestamp)
    requires Consistent(h) && h.completedDates == []
    ensures Toggled(h, day, now).dueDate == AddDays(now, 1)
    ensures Toggled(h, day, now).completionCount == 1
  {
  }

  /** Un-completing the only completed day leaves the habit due now. */
  lemma UncompleteOnlyDayDueNow(h: Habit, day: Day, now: Timestamp)
    requires Consistent(h) && h.completedDates == [day]
    ensures Toggled(h, day, now).dueDate == now
    ensures Toggled(h, day, now).completedDates == []
  {
  }

  // ---------------------------------------------------------------------------
  // The sequence builders of the four mutators

  /** `habits.map(h => h.id === id ? { ...h, name, url } : h)`. */
  function Edited(hs: seq<Habit>, id: int, name: string, url: string): (r: seq<Habit>)
    ensures |r| == |hs|
    ensures forall i :: 0 <= i < |hs| ==>
      && r[i].id == hs[i].id
      && r[i].completedDates == hs[i].completedDates
      && r[i].completionCount == hs[i].completionCount
      && r[i].dueDate == hs[i].dueDate
    ensures forall i :: 0 <= i < |hs| && hs[i].id == id ==> r[i].name == name && r[i].url == url
    ensures forall i :: 0 <= i < |hs| && hs[i].id != id ==> r[i] == hs[i]
  {
    seq(|hs|, i requires 0 <= i < |hs| =>
      if hs[i].id == id then hs[i].(name := name, url := url) else hs[i])
  }

  /** `habits.filter(h => h.id !== id)`. */
  function Deleted(hs: seq<Habit>, id: int): (r: seq<Habit>)
    ensures |r| <= |hs|
    ensures forall h :: h in r <==> h in hs && h.id != id
    ensures (forall h :: h in hs ==> h.id != id) ==> r == hs
  {
    if hs == [] then []
    else if hs[0].id == id then Deleted(hs[1..], id)
    else [hs[0]] + Deleted(hs[1..], id)
  }

  /** `habits.map(h => h.id === id ? toggled(h) : h)`. */
  function ToggleAll(hs: seq<Habit>, id: int, day: Day, now: Timestamp): (r: seq<Habit>)
    ensures |r| == |hs|
    ensures forall i :: 0 <= i < |hs| ==> r[i].id == hs[i].id && r[i].name == hs[i].name && r[i].url == hs[i].url
    ensures forall i :: 0 <= i < |hs| && hs[i].id != id ==> r[i] == hs[i]
    ensures forall i :: 0 <= i < |hs| && hs[i].id == id ==> r[i] == Toggled(hs[i], day, now)
  {
    seq(|hs|, i requires 0 <= i < |hs| =>
      if hs[i].id == id then Toggled(hs[i], day, now) else hs[i])
  }

  /** Deleting keeps the relative order: it distributes over concatenation. */
  lemma {:induction false} DeletedConcat(a: seq<Habit>, b: seq<Habit>, id: int)
    ensures Deleted(a + b, id) == Deleted(a, id) + Deleted(b, id)
  {
    if a == [] {
      assert a + b == b;
    } else {
      assert (a + b)[1..] == a[1..] + b;
      DeletedConcat(a[1..], b, id);
    }
  }

  /** Deleting twice is deleting once. */
  lemma DeleteIdempotent(hs: seq<Habit>, id: int)
    ensures Deleted(Deleted(hs, id), id) == Deleted(hs, id)
  {
  }

  /** Editing an id that no habit has changes nothing. */
  lemma EditUnknownId(hs: seq<Habit>, id: int, name: string, url: string)
    requires forall h :: h in hs ==> h.id != id
    ensures Edited(hs, id, name, url) == hs
  {
  }

  /** Toggling an id that no habit has changes nothing. */
  lemma ToggleUnknownId(hs: seq<Habit>, id: int, day: Day, now: Timestamp)
    requires forall h :: h in hs ==> h.id != id
    ensures ToggleAll(hs, id, day, now) == hs
  {
  }

  /** Appending a habit with a fresh id and no completions keeps the store invariant. */
  lemma AddKeepsInvariant(hs: seq<Habit>, h: Habit)
    requires StoreInvariant(hs)
    requires forall g :: g in hs ==> g.id != h.id
    requires h.completedDates == [] && h.completionCount == 0
    ensures StoreInvariant(hs + [h])
  {
    var r := hs + [h];
    forall i, j | 0 <= i < j < |r| ensures r[i].id != r[j].id {
      if j == |hs| {
        assert r[i] in hs;
      }
    }
  }

  lemma EditKeepsInvariant(hs: seq<Habit>, id: int, name: string, url: string)
    requires StoreInvariant(hs)
    ensures StoreInvariant(Edited(hs, id, name, url))
  {
    var r := Edited(hs, id, name, url);
    forall g | g in r ensures Consistent(g) {
      var i :| 0 <= i < |r| && r[i] == g;
      assert hs[i] in hs;
    }
  }

  lemma UniqueIdsCons(h: Habit, t: seq<Habit>)
    requires UniqueIds(t)
    requires forall g :: g in t ==> g.id != h.id
    ensures UniqueIds([h] + t)
  {
    var r := [h] + t;
    forall i, j | 0 <= i < j < |r| ensures r[i].id != r[j].id {
      assert r[j] == t[j - 1];
      if i > 0 {
        assert r[i] == t[i - 1];
      }
    }
  }

  lemma {:induction false} DeleteKeepsUniqueIds(hs: seq<Habit>, id: int)
    requires UniqueIds(hs)
    ensures UniqueIds(Deleted(hs, id))
  {
    if hs != [] {
      var rest := hs[1..];
      assert UniqueIds(rest) by {
        forall i, j | 0 <= i < j < |rest| ensures rest[i].id != rest[j].id {
          assert rest[i] == hs[i + 1] && rest[j] == hs[j + 1];
        }
      }
      DeleteKeepsUniqueIds(rest, id);
      if hs[0].id != id {
        var t := Deleted(rest, id);
        forall g | g in t ensures g.id != hs[0].id {
          assert g in rest;
          var k :| 0 <= k < |rest| && rest[k] == g;
          assert hs[k + 1] == g;
        }
        UniqueIdsCons(hs[0], t);
      }
    }
  }

  lemma DeleteKeepsInvariant(hs: seq<Habit>, id: int)
    requires StoreInvariant(hs)
    ensures StoreInvariant(Deleted(hs, id))
  {
    DeleteKeepsUniqueIds(hs, id);
  }

  lemma ToggleKeepsInvariant(hs: seq<Habit>, id: int, day: Day, now: Timestamp)
    requires StoreInvariant(hs)
    ensures StoreInvariant(ToggleAll(hs, id, day, now))
  {
    var r := ToggleAll(hs, id, day, now);
    forall g | g in r ensures Consistent(g) {
      var i :| 0 <= i < |r| && r[i] == g;
      assert hs[i] in hs;
      if hs[i].id == id {
        ToggleKeepsConsistent(hs[i], day, now);
      }
    }
  }

  // ---------------------------------------------------------------------------
  // The store object

  /** The provider's `habits` state and its mutators. `now` and the new id, read from
      the clock in the source, are parameters. */
  class HabitStore {
    var habits: seq<Habit>

    constructor ()
      ensures habits == []
    {
      habits := [];
    }

    /** `addHabit`: appends one habit with trimmed name and url, no completions, a count
        of zero and due now; the habits before it are unchanged. */
    method AddHabit(name: string, url: string, id: int, now: Timestamp)
      modifies this
      ensures habits == old(habits) + [Habit(id, Trim(name), Trim(url), [], now, 0)]
    {
      habits := habits + [Habit(id, Trim(name), Trim(url), [], now, 0)];
    }

    /** `editHabit`: replaces name and url of the habits with this id, nothing else. */
    method EditHabit(id: int, newName: string, newUrl: string)
      modifies this
      ensures habits == Edited(old(habits), id, newName, newUrl)
    {
      habits := Edited(habits, id, newName, newUrl);
    }

    /** `deleteHabit`: drops every habit with this id. */
    method DeleteHabit(id: int)
      modifies this
      ensures habits == Deleted(old(habits), id)
    {
      habits := Deleted(habits, id);
    }

    /** `toggleHabitCompletion`: the map over the habits, running the toggle callback on
        each habit whose id matches. */
    method ToggleHabitCompletion(habitId: int, date: Timestamp, now: Timestamp)
      modifies this
      ensures habits == ToggleAll(old(habits), habitId, date.day, now)
    {
      var hs := habits;
      var updated: seq<Habit> := [];
      for i := 0 to |hs|
        invariant |updated| == i
        invariant forall k :: 0 <= k < i ==>
          updated[k] == if hs[k].id == habitId then Toggled(hs[k], date.day, now) else hs[k]
      {
        var h := hs[i];
        if h.id == habitId {
          h := ToggleEntry(h, date, now);
        }
        updated := updated + [h];
      }
      habits := updated;
    }
  }
}
