/** The proleptic Gregorian calendar, as far as the summary needs it: the
    length of a month and the dates a clock can report. */
module Calendar {
  /** Gregorian leap years: every fourth year, except centuries not
      divisible by 400. */
  predicate IsLeapYear(year: int)
  {
    year % 4 == 0 && (year % 100 != 0 || year % 400 == 0)
  }

  /** The number of days in `month` of `year`: the second component of
      `calendar.monthrange(year, month)`. */
  function DaysInMonth(year: int, month: int): (days: int)
    requires 1 <= month <= 12
    ensures 28 <= days <= 31
    ensures month == 2 ==> (days == 29 <==> IsLeapYear(year))
    ensures month == 4 || month == 6 || month == 9 || month == 11 ==> days == 30
  {
    if month == 2 then (if IsLeapYear(year) then 29 else 28)
    else if month == 4 || month == 6 || month == 9 || month == 11 then 30
    else 31
  }

  /** The days of the months that come before `month` in `year`. */
  function DaysBeforeMonth(year: int, month: int): (days: int)
    requires 1 <= month <= 13
    decreases month
  {
    if month == 1 then 0 else DaysBeforeMonth(year, month - 1) + DaysInMonth(year, month - 1)
  }

  /** The twelve months add up to the length of a Gregorian year. */
  lemma YearLength(year: int)
    ensures DaysBeforeMonth(year, 13) == if IsLeapYear(year) then 366 else 365
  {
  }

  /** The knuckle rule: up to July the odd months have 31 days, from August
      on the even ones, and the other months are shorter. */
  lemma KnuckleRule(year: int, month: int)
    requires 1 <= month <= 12
    ensures DaysInMonth(year, month) == 31 <==>
              (month <= 7 && month % 2 == 1) || (month >= 8 && month % 2 == 0)
  {
  }

  /** A calendar date as `datetime.datetime.now()` reports it. */
  datatype Date = Date(year: int, month: int, day: int)

  /** A date `datetime` can represent: years 1 to 9999, a real month and a
      day within it. */
  predicate ValidDate(d: Date)
  {
    && 1 <= d.year <= 9999
    && 1 <= d.month <= 12
    && 1 <= d.day <= DaysInMonth(d.year, d.month)
  }

  /** February of 2024 has 29 days and of 2023 has 28; the century rules
      give 1900 28 days and 2000 29. */
  lemma FebruaryExamples()
    ensures DaysInMonth(2024, 2) == 29 && DaysInMonth(2023, 2) == 28
    ensures DaysInMonth(1900, 2) == 28 && DaysInMonth(2000, 2) == 29
  {
  }
}
