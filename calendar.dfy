/** Calendar days and timestamps as the habit engine sees them. A calendar day (the
    `YYYY-MM-DD` strings of the source) is an integer count of days since the epoch; a
    timestamp (a JavaScript Date, or its ISO 8601 string) is a day together with an
    opaque time of day. Month lengths, leap years and time zones are not modelled:
    adding n days to a timestamp moves its day by n and keeps its time of day. */
module Calendar {

  type Day = int

  datatype Timestamp = Timestamp(day: Day, time: nat)

  /** The last day a JavaScript Date can hold: its time value is limited to 10^8 days
      on either side of the epoch. Days in this model have no such bound. */
  const MaxDateDay: int := 100_000_000

  /** `date.setDate(date.getDate() + n)` on a copy of `t`: n days later (earlier for a
      negative n), at the same time of day. */
  function AddDays(t: Timestamp, n: int): (r: Timestamp)
    ensures r.day - t.day == n && r.time == t.time
  {
    Timestamp(t.day + n, t.time)
  }

  /** Two moves by whole days add up to one. */
  lemma AddDaysAdditive(t: Timestamp, a: int, b: int)
    ensures AddDays(AddDays(t, a), b) == AddDays(t, a + b)
    ensures AddDays(t, 0) == t
  {
  }

  /** `new Date("YYYY-MM-DD")`: midnight at the start of the given day. */
  function StartOfDay(d: Day): (r: Timestamp)
    ensures r.day == d && r.time == 0
  {
    Timestamp(d, 0)
  }

  /** 2^n, the exact value of `Math.pow(2, n)` for a natural exponent. */
  function Pow2(n: nat): (r: nat)
    ensures r >= 1
  {
    if n == 0 then 1 else 2 * Pow2(n - 1)
  }

  /** 2^(a+b) == 2^a * 2^b. */
  lemma {:induction false} Pow2Sum(a: nat, b: nat)
    ensures Pow2(a + b) == Pow2(a) * Pow2(b)
  {
    if a > 0 {
      Pow2Sum(a - 1, b);
      assert Pow2(a + b) == 2 * Pow2(a - 1 + b);
    }
  }

  /** 2^27 is larger than the whole range of JavaScript dates. */
  lemma Pow2Of27()
    ensures Pow2(27) == 134_217_728 > MaxDateDay
  {
    assert Pow2(3) == 8;
    Pow2Sum(3, 3);
    Pow2Sum(6, 6);
    Pow2Sum(12, 12);
    Pow2Sum(24, 3);
  }
}
