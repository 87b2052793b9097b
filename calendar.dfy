/** The proleptic Gregorian calendar that Python's `datetime` checks dates against. */
module Calendar {

  predicate IsLeapYear(y: int) {
    y % 4 == 0 && (y % 100 != 0 || y % 400 == 0)
  }

  function DaysInMonth(y: int, m: int): (days: int)
    requires 1 <= m <= 12
    ensures 28 <= days <= 31
    ensures days == 29 <==> m == 2 && IsLeapYear(y)
  {
    if m == 2 then (if IsLeapYear(y) then 29 else 28)
    else if m == 4 || m == 6 || m == 9 || m == 11 then 30
    else 31
  }

  /** `datetime(y, m, d)` exists (years above 9999 cannot be written in four digits). */
  predicate IsGregorianDate(y: int, m: int, d: int) {
    1 <= y && 1 <= m <= 12 && 1 <= d <= DaysInMonth(y, m)
  }

  /** The first day of a month always exists. */
  lemma FirstOfMonth(y: int, m: int)
    ensures IsGregorianDate(y, m, 1) <==> 1 <= y && 1 <= m <= 12
  {
  }

  /** February 29th exists exactly in leap years. */
  lemma LeapDay(y: int)
    ensures IsGregorianDate(y, 2, 29) <==> 1 <= y && IsLeapYear(y)
  {
  }

  /** Days from the start of year y to the end of month m. */
  function DaysThrough(y: int, m: int): int
    requires 0 <= m <= 12
  {
    if m == 0 then 0 else DaysThrough(y, m - 1) + DaysInMonth(y, m)
  }

  /** The twelve months together make a year of 365 days, 366 in a leap year. */
  lemma YearLength(y: int)
    ensures DaysThrough(y, 12) == if IsLeapYear(y) then 366 else 365
  {
    var feb := DaysInMonth(y, 2);
    assert DaysThrough(y, 1) == 31;
    assert DaysThrough(y, 2) == 31 + feb;
    assert DaysThrough(y, 3) == 62 + feb;
    assert DaysThrough(y, 4) == 92 + feb;
    assert DaysThrough(y, 5) == 123 + feb;
    assert DaysThrough(y, 6) == 153 + feb;
    assert DaysThrough(y, 7) == 184 + feb;
    assert DaysThrough(y, 8) == 215 + feb;
    assert DaysThrough(y, 9) == 245 + feb;
    assert DaysThrough(y, 10) == 276 + feb;
    assert DaysThrough(y, 11) == 306 + feb;
  }
}
