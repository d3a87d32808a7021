/**
 * The age shown in the about section (src/components/About.tsx): whole years
 * between the date of birth and today.  Dates are (year, month, day) triples;
 * the month numbering only has to be the same for both dates.
 */
module About {

  datatype Date = Date(year: int, month: int, day: int)

  /** The date of birth of src/data/portfolio.ts:8. */
  const DateOfBirth: Date := Date(2009, 11, 4)

  /** Calendar order on dates. */
  predicate Before(a: Date, b: Date) {
    a.year < b.year
    || (a.year == b.year && (a.month < b.month || (a.month == b.month && a.day < b.day)))
  }

  predicate OnOrBefore(a: Date, b: Date) {
    a == b || Before(a, b)
  }

  /** The `k`-th anniversary of a date. */
  function Anniversary(birth: Date, k: int): (d: Date)
    ensures d.month == birth.month && d.day == birth.day
  {
    Date(birth.year + k, birth.month, birth.day)
  }

  /**
   * The year difference, less one when today's month comes before the
   * birth month, or is the birth month with an earlier day.
   */
  function Age(birth: Date, today: Date): (age: int)
    ensures age == today.year - birth.year || age == today.year - birth.year - 1
    ensures age == today.year - birth.year - 1
            <==> Before(today, Anniversary(birth, today.year - birth.year))
  {
    var age := today.year - birth.year;
    var monthDiff := today.month - birth.month;
    if monthDiff < 0 || (monthDiff == 0 && today.day < birth.day) then age - 1 else age
  }

  /** The age is the number of anniversaries that have passed: the largest such count. */
  lemma AgeIsCompletedYears(birth: Date, today: Date)
    ensures OnOrBefore(Anniversary(birth, Age(birth, today)), today)
    ensures Before(today, Anniversary(birth, Age(birth, today) + 1))
  {
  }

  /** No other count of years has that property. */
  lemma CompletedYearsUnique(birth: Date, today: Date, k: int)
    requires OnOrBefore(Anniversary(birth, k), today)
    requires Before(today, Anniversary(birth, k + 1))
    ensures k == Age(birth, today)
  {
  }

  /** On the birthday itself the year difference is not reduced. */
  lemma NoDecrementOnBirthday(birth: Date, year: int)
    ensures Age(birth, Date(year, birth.month, birth.day)) == year - birth.year
  {
  }

  /** From the date of birth on, the age is not negative. */
  lemma AgeNonNegative(birth: Date, today: Date)
    requires OnOrBefore(birth, today)
    ensures Age(birth, today) >= 0
  {
  }

  /** As today advances, the age never decreases. */
  lemma AgeMonotone(birth: Date, today: Date, later: Date)
    requires OnOrBefore(today, later)
    ensures Age(birth, today) <= Age(birth, later)
  {
  }

  /** The day before and the day of the sixteenth birthday. */
  lemma BirthdayExamples()
    ensures Age(DateOfBirth, Date(2025, 11, 3)) == 15
    ensures Age(DateOfBirth, Date(2025, 11, 4)) == 16
  {
  }
}
