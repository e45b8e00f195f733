/** The aircraft record and the labels the aircraft card derives from it: the status with its
    variant and icon, the status text, the usage level and the colour classes. */
module AircraftCard {
  import opened Wrappers
  import opened JsString
  import opened Status

  /** One fleet entry. `None` stands for JavaScript's `undefined` (a cell missing from a short
      CSV row) and, in `flightHours`, for the `NaN` that `parseInt` returns. */
  datatype Aircraft = Aircraft(
    tailNumber: string,
    model: Option<string>,
    lastCheck: Option<string>,
    nextCheck: Option<string>,
    flightHours: Option<int>)

  /** The four card variants. */
  datatype Variant = Error | Warning | Info | Success

  datatype StatusInfo = StatusInfo(status: string, variant: Variant, icon: string)

  /** The card's own status ladder over its day count. */
  function CardStatus(daysUntil: Days): (r: StatusInfo)
    ensures r == StatusInfo("overdue", Error, "alert") <==> InBand(Overdue, daysUntil)
    ensures r == StatusInfo("urgent", Warning, "alert") <==> InBand(Urgent, daysUntil)
    ensures r == StatusInfo("due-soon", Info, "history") <==> InBand(DueSoon, daysUntil)
    ensures r == StatusInfo("good", Success, "sys-enter-2") <==> InBand(Good, daysUntil)
  {
    if Below(daysUntil, 0) then StatusInfo("overdue", Error, "alert")
    else if AtMost(daysUntil, 30) then StatusInfo("urgent", Warning, "alert")
    else if AtMost(daysUntil, 90) then StatusInfo("due-soon", Info, "history")
    else StatusInfo("good", Success, "sys-enter-2")
  }

  /** A day count in a template literal: its decimal digits, or "NaN". */
  function DaysText(d: Days): string {
    match d
    case Whole(n) => IntToString(n)
    case NaN => "NaN"
  }

  /** The card's status text. */
  function StatusText(daysUntil: Days): (r: string)
    ensures r == "Due today" <==> daysUntil == Whole(0)
  {
    if Below(daysUntil, 0) then IntToString(-daysUntil.n) + " days overdue"
    else if daysUntil == Whole(0) then "Due today"
    else DaysText(daysUntil) + " days remaining"
  }

  predicate EndsWith(s: string, suffix: string) {
    |suffix| <= |s| && s[|s| - |suffix|..] == suffix
  }

  /** A `NaN` count reads "NaN days remaining": no comparison with it holds. */
  lemma StatusTextOfNaN()
    ensures StatusText(NaN) == "NaN days remaining"
  {
  }

  /** A text that ends with a non-empty suffix ends with the suffix's last character. */
  lemma EndsWithLast(s: string, suffix: string)
    requires suffix != [] && EndsWith(s, suffix)
    ensures s[|s| - 1] == suffix[|suffix| - 1]
  {
    assert s[|s| - |suffix|..][|suffix| - 1] == s[|s| - 1];
  }

  /** `parseInt` reads the number of days back from the front of the status text. */
  lemma StatusTextReadsBack(daysUntil: Days)
    requires daysUntil.Whole? && daysUntil.n != 0
    ensures ParseInt(StatusText(daysUntil)) == Some(if daysUntil.n < 0 then -daysUntil.n else daysUntil.n)
  {
    var suffix := if daysUntil.n < 0 then " days overdue" else " days remaining";
    var n := if daysUntil.n < 0 then -daysUntil.n else daysUntil.n;
    assert suffix[0] == ' ';
    assert StatusText(daysUntil) == IntToString(n) + suffix;
    ParseIntOfIntToString(n, suffix);
  }

  /** The status text speaks of "overdue" exactly when the day count is negative. */
  lemma StatusTextSaysOverdue(daysUntil: Days)
    ensures EndsWith(StatusText(daysUntil), " days overdue") <==> Below(daysUntil, 0)
  {
    var suffix := " days overdue";
    if Below(daysUntil, 0) {
      var head := IntToString(-daysUntil.n);
      assert (head + suffix)[|head|..] == suffix;
    } else {
      var r := StatusText(daysUntil);
      assert r[|r| - 1] != suffix[|suffix| - 1];
      if EndsWith(r, suffix) {
        EndsWithLast(r, suffix);
        assert false;
      }
    }
  }

  /** The status text speaks of days "remaining" exactly when the count is positive or `NaN`. */
  lemma StatusTextSaysRemaining(daysUntil: Days)
    ensures EndsWith(StatusText(daysUntil), " days remaining")
        <==> !Below(daysUntil, 0) && daysUntil != Whole(0)
  {
    var suffix := " days remaining";
    if !Below(daysUntil, 0) && daysUntil != Whole(0) {
      var head := DaysText(daysUntil);
      assert (head + suffix)[|head|..] == suffix;
    } else {
      var r := StatusText(daysUntil);
      assert r[|r| - 1] != suffix[|suffix| - 1];
      if EndsWith(r, suffix) {
        EndsWithLast(r, suffix);
        assert false;
      }
    }
  }

  /** `hours > limit` as JavaScript evaluates it: false for `NaN`. */
  predicate HoursAbove(hours: Option<int>, limit: int) {
    hours.Some? && hours.value > limit
  }

  /** The usage level shown for the flight hours. */
  function UsageLevel(hours: Option<int>): (r: string)
    ensures r == "High" <==> HoursAbove(hours, 4000)
    ensures r == "Medium" <==> HoursAbove(hours, 2000) && hours.value <= 4000
    ensures r == "Low" <==> !HoursAbove(hours, 2000)
  {
    if HoursAbove(hours, 4000) then "High"
    else if HoursAbove(hours, 2000) then "Medium"
    else "Low"
  }

  /** The colour class of the usage level. */
  function UsageColorClass(hours: Option<int>): string {
    if HoursAbove(hours, 4000) then "text-warning"
    else if HoursAbove(hours, 2000) then "text-info"
    else "text-success"
  }

  /** The usage colour uses the same thresholds as the usage level. */
  lemma UsageColorFollowsLevel(hours: Option<int>)
    ensures UsageColorClass(hours) == "text-warning" <==> UsageLevel(hours) == "High"
    ensures UsageColorClass(hours) == "text-info" <==> UsageLevel(hours) == "Medium"
    ensures UsageColorClass(hours) == "text-success" <==> UsageLevel(hours) == "Low"
  {
  }

  /** The icon colour class of a variant. */
  function IconColorClass(v: Variant): (r: string)
    ensures r == "text-error" <==> v == Error
    ensures r == "text-warning" <==> v == Warning
    ensures r == "text-info" <==> v == Info
    ensures r == "text-success" <==> v == Success
  {
    match v
    case Error => "text-error"
    case Warning => "text-warning"
    case Info => "text-info"
    case Success => "text-success"
  }
}
