/**
 * An abstract calendar instant: what `new Date(text)` yields in the browser.
 * A valid date carries its local year and month (as `getFullYear` and
 * `getMonth` report them, the month counted 0..11) and its position within
 * that month; an unparsable text yields `Invalid` (a date whose time value is NaN).
 */
module Dates {
  type Month = m: int | 0 <= m < 12

  datatype Date = Invalid | Valid(year: int, month: Month, offset: nat)

  /** `a < b` on two JS dates: compares time values; any comparison with NaN is false. */
  predicate Before(a: Date, b: Date) {
    && a.Valid? && b.Valid?
    && (a.year < b.year
        || (a.year == b.year && a.month < b.month)
        || (a.year == b.year && a.month == b.month && a.offset < b.offset))
  }

  /** `a <= b` on two JS dates (false when either is invalid). */
  predicate AtMost(a: Date, b: Date) {
    a.Valid? && b.Valid? && !Before(b, a)
  }

  /** `getMonth() === ...getMonth() && getFullYear() === ...getFullYear()`; NaN equals nothing. */
  predicate SameMonth(a: Date, b: Date) {
    a.Valid? && b.Valid? && a.year == b.year && a.month == b.month
  }

  /** Valid dates are totally ordered by `AtMost`, and `Before` is its strict part. */
  lemma ValidDatesTotallyOrdered(a: Date, b: Date, c: Date)
    requires a.Valid? && b.Valid? && c.Valid?
    ensures AtMost(a, b) || AtMost(b, a)
    ensures AtMost(a, b) && AtMost(b, a) ==> a == b
    ensures AtMost(a, b) && AtMost(b, c) ==> AtMost(a, c)
    ensures Before(a, b) <==> AtMost(a, b) && a != b
  {
  }

  /** An invalid date is neither before, after, nor equal-or-ordered with anything. */
  lemma InvalidIncomparable(a: Date, d: Date)
    requires a.Invalid?
    ensures !Before(a, d) && !Before(d, a) && !AtMost(a, d) && !AtMost(d, a) && !SameMonth(a, d)
  {
  }
}
