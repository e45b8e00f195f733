/** Day counts as the components compute them, the four maintenance statuses, and the
    reference definition of which day counts belong to which status. */
module Status {
  import opened Wrappers

  /** A day count as a JavaScript number: a whole number of days, or `NaN` when the
      next-check date does not parse (or is `undefined`). */
  datatype Days = Whole(n: int) | NaN

  /** How a component turns an aircraft's next-check cell into a day count at the moment it
      renders. The clock and `new Date(...)` stand behind this function. */
  type DayCounter = Option<string> -> Days

  /** `d < k` as JavaScript evaluates it: false when `d` is `NaN`. */
  predicate Below(d: Days, k: int) {
    d.Whole? && d.n < k
  }

  /** `d <= k` as JavaScript evaluates it: false when `d` is `NaN`. */
  predicate AtMost(d: Days, k: int) {
    d.Whole? && d.n <= k
  }

  /** `d >= k` as JavaScript evaluates it: false when `d` is `NaN`. */
  predicate AtLeast(d: Days, k: int) {
    d.Whole? && d.n >= k
  }

  /** The `MaintenanceStatus` union of the overview component. */
  datatype MaintenanceStatus = Overdue | Urgent | DueSoon | Good

  /** The status's string value. */
  function Name(s: MaintenanceStatus): string {
    match s
    case Overdue => "overdue"
    case Urgent => "urgent"
    case DueSoon => "due-soon"
    case Good => "good"
  }

  /** Distinct statuses have distinct string values, so comparing names compares statuses. */
  lemma NameInjective(s: MaintenanceStatus, t: MaintenanceStatus)
    ensures Name(s) == Name(t) ==> s == t
  {
  }

  /** The bands of the day count stated as ranges: overdue below 0, urgent from 0 to 30, due
      soon from 31 to 90, good above 90. A `NaN` count passes none of the three comparisons
      the code makes, so it ends in the good band. */
  predicate InBand(s: MaintenanceStatus, d: Days) {
    match s
    case Overdue => d.Whole? && d.n < 0
    case Urgent => d.Whole? && 0 <= d.n <= 30
    case DueSoon => d.Whole? && 31 <= d.n <= 90
    case Good => d.NaN? || d.n > 90
  }

  /** Every day count lies in exactly one band. */
  lemma BandsPartition(d: Days)
    ensures exists s :: InBand(s, d)
    ensures forall s, t :: InBand(s, d) && InBand(t, d) ==> s == t
  {
    if d.NaN? || d.n > 90 {
      assert InBand(Good, d);
    } else if d.n < 0 {
      assert InBand(Overdue, d);
    } else if d.n <= 30 {
      assert InBand(Urgent, d);
    } else {
      assert InBand(DueSoon, d);
    }
  }
}
