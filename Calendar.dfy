/**
 * Production dates. The service reads a `java.util.Date` both as a
 * millisecond timestamp (`getTime()`) and as a calendar year
 * (`getYear() + 1900`). A date is modelled as that pair, and a subset type
 * ties the two together: the timestamp lies inside the year. Years start at
 * midnight UTC in the proleptic Gregorian calendar.
 */
module Calendar {

  const MillisPerDay: int := 86_400_000

  /** Days from 1 January 0001 to 1 January 1970. */
  const EpochDay: int := 719_162

  predicate IsLeapYear(y: int) {
    y % 4 == 0 && (y % 100 != 0 || y % 400 == 0)
  }

  /** Days from 1 January 0001 to 1 January of year `y`. */
  function DaysBeforeYear(y: int): int {
    365 * (y - 1) + (y - 1) / 4 - (y - 1) / 100 + (y - 1) / 400
  }

  /** Milliseconds since the Unix epoch at the first instant of year `y`. */
  function StartOfYear(y: int): int {
    (DaysBeforeYear(y) - EpochDay) * MillisPerDay
  }

  lemma YearLength(y: int)
    ensures DaysBeforeYear(y + 1) - DaysBeforeYear(y) == if IsLeapYear(y) then 366 else 365
  {
    assert y / 4 - (y - 1) / 4 == if y % 4 == 0 then 1 else 0;
    assert y / 100 - (y - 1) / 100 == if y % 100 == 0 then 1 else 0;
    assert y / 400 - (y - 1) / 400 == if y % 400 == 0 then 1 else 0;
    assert y % 400 == 0 ==> y % 100 == 0 && y % 4 == 0;
    assert y % 100 == 0 ==> y % 4 == 0;
  }

  lemma {:induction false} StartOfYearIncreasing(a: int, b: int)
    requires a < b
    ensures StartOfYear(a) < StartOfYear(b)
    decreases b - a
  {
    YearLength(b - 1);
    if a < b - 1 {
      StartOfYearIncreasing(a, b - 1);
    }
  }

  datatype DateTime = DateTime(time: int, year: int)

  /** A date whose timestamp falls within its calendar year. */
  type ProdDate = d: DateTime | StartOfYear(d.year) <= d.time < StartOfYear(d.year + 1)
    witness DateTime(StartOfYear(2800), 2800)

  /** `new Date(2800 - 1900, 0, 1).getTime()`. */
  const StartProdDate: int := StartOfYear(2800)
  /** `new Date(3019 - 1900, 0, 1).getTime()`. */
  const EndProdDate: int := StartOfYear(3019)

  lemma ProdDateBoundsValues()
    ensures StartProdDate == 26_192_246_400_000
    ensures EndProdDate == 33_103_209_600_000
  {
  }

  /** The window the validator accepts: both ends included. */
  predicate InProductionWindow(d: ProdDate) {
    StartProdDate <= d.time <= EndProdDate
  }

  /**
   * A date is in the window exactly when its year is 2800 to 3018, or it is
   * the first instant of 3019. So every accepted date has a year between
   * 2800 and 3019, and the rating denominator `3019 - year + 1` is 1 to 220.
   */
  lemma {:induction false} ProductionWindowYears(d: ProdDate)
    ensures InProductionWindow(d) <==> (2800 <= d.year <= 3018 || d.time == EndProdDate)
    ensures InProductionWindow(d) ==> 2800 <= d.year <= 3019
  {
    if d.year < 2800 {
      if d.year + 1 < 2800 { StartOfYearIncreasing(d.year + 1, 2800); }
    } else if d.year <= 3018 {
      if 2800 < d.year { StartOfYearIncreasing(2800, d.year); }
      if d.year + 1 < 3019 { StartOfYearIncreasing(d.year + 1, 3019); }
    } else if d.year == 3019 {
    } else {
      StartOfYearIncreasing(3019, d.year);
    }
  }
}
