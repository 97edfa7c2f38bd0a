/** Instants and whole-day arithmetic as the date-fns helpers use them.
    An instant is a number of milliseconds since the epoch (`Date.getTime()`). */
module Time {

  /** Milliseconds in one day. */
  const Day: int := 86400000

  /** `addDays(t, n)` */
  function AddDays(t: int, n: int): int {
    t + n * Day
  }

  /** `differenceInDays(later, earlier)`: the number of whole days between the
      two instants, truncated toward zero (negative when `later` is earlier). */
  function DifferenceInDays(later: int, earlier: int): (d: int)
    ensures later >= earlier ==> 0 <= d && d * Day <= later - earlier < d * Day + Day
    ensures later < earlier ==> d <= 0 && d * Day - Day < later - earlier <= d * Day
  {
    var diff := later - earlier;
    if diff >= 0 then diff / Day else -((-diff) / Day)
  }

  /** Adding n days and measuring the difference gives back n. */
  lemma DifferenceOfAddDays(t: int, n: int)
    ensures DifferenceInDays(AddDays(t, n), t) == n
  {
    var d := DifferenceInDays(AddDays(t, n), t);
    if n >= 0 {
      assert d * Day <= n * Day < d * Day + Day;
    } else {
      assert d * Day - Day < n * Day <= d * Day;
    }
  }

  /** The day difference never decreases when `later` moves later. */
  lemma DifferenceInDaysMonotonic(a: int, b: int, earlier: int)
    requires a <= b
    ensures DifferenceInDays(a, earlier) <= DifferenceInDays(b, earlier)
  {
    var da, db := DifferenceInDays(a, earlier), DifferenceInDays(b, earlier);
    if da > db {
      assert da >= db + 1;
    }
  }

  /** Day difference thresholds expressed on the instants themselves. */
  lemma DifferenceAtMost(later: int, earlier: int, k: nat)
    ensures DifferenceInDays(later, earlier) <= k <==> later - earlier < (k + 1) * Day
  {
    var d := DifferenceInDays(later, earlier);
    if later >= earlier {
      if d <= k {
        assert d * Day <= k * Day;
      } else {
        assert (k + 1) * Day <= d * Day;
      }
    }
  }
  /** The first instant of the UTC day holding `t`: all a SQL `date` column
      keeps of an instant written to it. */
  function StartOfDay(t: int): (d: int)
    ensures d <= t < d + Day
    ensures d % Day == 0
  {
    t - t % Day
  }

  /** An instant is the start of its day exactly when it is a whole number of
      days from the epoch; the start of a day is the one such instant at most
      a day before. */
  lemma StartOfDayUnique(t: int, a: int)
    requires a % Day == 0 && a <= t < a + Day
    ensures StartOfDay(t) == a
  {
    var b := StartOfDay(t);
    var i, j := a / Day, b / Day;
    assert a == i * Day && b == j * Day;
  }

  /** An instant a whole number of days from the epoch starts its own day. */
  lemma StartOfWholeDay(t: int)
    ensures t % Day == 0 ==> StartOfDay(t) == t
  {
    if t % Day == 0 {
      StartOfDayUnique(t, t);
    }
  }

  /** Moving by whole days commutes with taking the start of the day. */
  lemma StartOfDayAddDays(t: int, n: int)
    ensures StartOfDay(AddDays(t, n)) == AddDays(StartOfDay(t), n)
  {
    var d := StartOfDay(t);
    assert (d + n * Day) % Day == 0 by {
      assert d == (d / Day) * Day;
      assert d + n * Day == (d / Day + n) * Day;
    }
    StartOfDayUnique(AddDays(t, n), AddDays(d, n));
  }
}
