/** `get_last_friday` in update_readme_date.py. A day is its proleptic
    Gregorian ordinal as Python's `date.toordinal` gives it: 1 is
    0001-01-01, a Monday, and 3652059 is 9999-12-31. Today is a parameter
    instead of a clock reading; formatting the date as text is not modelled. */
module ReadmeDate {
  import opened Wrappers

  /** The days a Python `datetime` can represent. */
  type Ordinal = d: int | 1 <= d <= 3652059 witness 1

  const Friday := 4

  /** `weekday()` of the day with this ordinal: Monday is 0, Sunday is 6. */
  function Weekday(ordinal: int): (w: int)
    ensures 0 <= w <= 6
  {
    (ordinal + 6) % 7
  }

  /** `(weekday - 4) % 7` with Python's modulo, never negative. */
  function DaysSinceFriday(weekday: int): (k: int)
    ensures 0 <= k <= 6
  {
    (weekday - Friday) % 7
  }

  /** `today - timedelta(days=days_since_friday)`; subtracting past
      0001-01-01 raises OverflowError, modelled as `None`. */
  function LastFriday(today: Ordinal): (r: Option<Ordinal>)
    ensures r.Some? ==> r.value <= today <= r.value + 6
  {
    var day := today - DaysSinceFriday(Weekday(today));
    if day < 1 then None else Some(day)
  }

  /** Moving forward by n days moves the weekday forward by n, modulo 7. */
  lemma WeekdayShift(d: int, n: nat)
    ensures Weekday(d + n) == (Weekday(d) + n) % 7
  {
    var q := (d + 6) / 7;
    assert d + 6 == 7 * q + Weekday(d);
    assert d + n + 6 == 7 * q + (Weekday(d) + n);
  }

  /** The day found is a Friday. */
  lemma LastFridayIsFriday(today: Ordinal)
    ensures LastFriday(today).Some? ==> Weekday(LastFriday(today).value) == Friday
  {
    var k := DaysSinceFriday(Weekday(today));
    var day := today - k;
    WeekdayShift(day, k);
  }

  /** On a Friday the result is today itself. */
  lemma LastFridayOnFriday(today: Ordinal)
    requires Weekday(today) == Friday
    ensures LastFriday(today) == Some(today)
  {
  }

  /** No Friday lies after the day found and on or before today: it is the
      most recent Friday. */
  lemma LastFridayIsMostRecent(today: Ordinal, d: int)
    requires LastFriday(today).Some?
    requires LastFriday(today).value < d <= today
    ensures Weekday(d) != Friday
  {
    var day := LastFriday(today).value;
    LastFridayIsFriday(today);
    WeekdayShift(day, d - day);
  }

  /** The result is undefined exactly for the first four days of the
      calendar, which have no Friday on or before them. */
  lemma LastFridayDefined(today: Ordinal)
    ensures LastFriday(today).None? <==> today <= 4
  {
  }
}
