/** The fleet overview: the four status counts, the stat tiles built from them, the critical
    alert and the fleet health summary (availability and scheduled maintenance). */
module MaintenanceOverview {
  import opened Wrappers
  import opened JsString
  import opened Status
  import opened AircraftCard

  datatype Stats = Stats(overdue: nat, urgent: nat, dueSoon: nat, good: nat, total: nat)

  /** The number of aircraft whose day count lies in the band of `s`. */
  function CountInBand(aircraft: seq<Aircraft>, daysUntil: DayCounter, s: MaintenanceStatus): nat
    decreases |aircraft|
  {
    if aircraft == [] then 0
    else
      CountInBand(aircraft[..|aircraft| - 1], daysUntil, s)
      + (if InBand(s, daysUntil(aircraft[|aircraft| - 1].nextCheck)) then 1 else 0)
  }

  /** The four band counts add up to the fleet size. */
  lemma {:induction false} BandCountsPartition(aircraft: seq<Aircraft>, daysUntil: DayCounter)
    ensures CountInBand(aircraft, daysUntil, Overdue) + CountInBand(aircraft, daysUntil, Urgent)
          + CountInBand(aircraft, daysUntil, DueSoon) + CountInBand(aircraft, daysUntil, Good)
         == |aircraft|
    decreases |aircraft|
  {
    if aircraft != [] {
      BandCountsPartition(aircraft[..|aircraft| - 1], daysUntil);
      BandsPartition(daysUntil(aircraft[|aircraft| - 1].nextCheck));
    }
  }

  /** One pass over the fleet that sorts each aircraft's day count into one of four counters. */
  method CalculateMaintenanceStats(aircraft: seq<Aircraft>, daysUntil: DayCounter) returns (stats: Stats)
    ensures stats.overdue == CountInBand(aircraft, daysUntil, Overdue)
    ensures stats.urgent == CountInBand(aircraft, daysUntil, Urgent)
    ensures stats.dueSoon == CountInBand(aircraft, daysUntil, DueSoon)
    ensures stats.good == CountInBand(aircraft, daysUntil, Good)
    ensures stats.total == |aircraft|
    ensures stats.overdue + stats.urgent + stats.dueSoon + stats.good == stats.total
  {
    var overdue, urgent, dueSoon, good := 0, 0, 0, 0;
    for i := 0 to |aircraft|
      invariant overdue == CountInBand(aircraft[..i], daysUntil, Overdue)
      invariant urgent == CountInBand(aircraft[..i], daysUntil, Urgent)
      invariant dueSoon == CountInBand(aircraft[..i], daysUntil, DueSoon)
      invariant good == CountInBand(aircraft[..i], daysUntil, Good)
    {
      var diffDays := daysUntil(aircraft[i].nextCheck);
      if Below(diffDays, 0) {
        overdue := overdue + 1;
      } else if AtMost(diffDays, 30) {
        urgent := urgent + 1;
      } else if AtMost(diffDays, 90) {
        dueSoon := dueSoon + 1;
      } else {
        good := good + 1;
      }
      assert aircraft[..i + 1][..i] == aircraft[..i];
    }
    assert aircraft[..|aircraft|] == aircraft;
    BandCountsPartition(aircraft, daysUntil);
    stats := Stats(overdue, urgent, dueSoon, good, |aircraft|);
  }

  /** The count a stats record holds for one status. */
  function StatusCount(stats: Stats, s: MaintenanceStatus): nat {
    match s
    case Overdue => stats.overdue
    case Urgent => stats.urgent
    case DueSoon => stats.dueSoon
    case Good => stats.good
  }

  /** A KPI tile: its title, the count and total it shows, its icon and variant, and the status
      a click on it reports. */
  datatype StatCard = StatCard(
    title: string, count: nat, total: nat, icon: string, variant: Variant, target: MaintenanceStatus)

  /** The four tiles, in display order. */
  function StatCards(stats: Stats): (r: seq<StatCard>)
    ensures |r| == 4
    ensures forall k :: 0 <= k < |r| ==>
      r[k].count == StatusCount(stats, r[k].target) && r[k].total == stats.total
    ensures forall j, k :: 0 <= j < k < |r| ==> r[j].target != r[k].target
  {
    [ StatCard("Overdue Maintenance", stats.overdue, stats.total, "alert", Error, Overdue),
      StatCard("Urgent (≤30 days)", stats.urgent, stats.total, "history", Warning, Urgent),
      StatCard("Due Soon (≤90 days)", stats.dueSoon, stats.total, "history", Info, DueSoon),
      StatCard("Good Status", stats.good, stats.total, "sys-enter-2", Success, Good) ]
  }

  /** The label of a tile's badge. */
  function StatCardLabel(count: nat): (r: string)
    ensures r == "ATTENTION" <==> count > 0
    ensures r == "NORMAL" <==> count == 0
  {
    if count > 0 then "ATTENTION" else "NORMAL"
  }

  /** The class of a tile's badge, by its variant. */
  function StatusBadgeClass(v: Variant): (r: string)
    ensures r == "status-error" <==> v == Error
    ensures r == "status-warning" <==> v == Warning
    ensures r == "status-info" <==> v == Info
    ensures r == "status-success" <==> v == Success
  {
    match v
    case Error => "status-error"
    case Warning => "status-warning"
    case Info => "status-info"
    case Success => "status-success"
  }

  /** The critical alert's message, present only when some aircraft is overdue; `parseInt`
      reads the overdue count back from its front. */
  function CriticalAlert(stats: Stats): (r: Option<string>)
    ensures r.Some? <==> stats.overdue > 0
    ensures r.Some? ==> ParseInt(r.value) == Some(stats.overdue)
  {
    if stats.overdue > 0 then
      var tail := " " + "aircraft require immediate maintenance attention";
      ParseIntOfIntToString(stats.overdue, tail);
      Some(IntToString(stats.overdue) + tail)
    else None
  }

  /** Fleet availability in whole percent: 100·(good + dueSoon)/total rounded half up, as
      `Math.round` does; an empty fleet divides zero by zero and shows `NaN`. */
  function Availability(stats: Stats): (r: Option<int>)
    ensures r.None? <==> stats.total == 0
    ensures r.Some? ==>
      2 * stats.total * r.value <= 200 * (stats.good + stats.dueSoon) + stats.total
      < 2 * stats.total * (r.value + 1)
    ensures r.Some? && stats.good + stats.dueSoon <= stats.total ==> 0 <= r.value <= 100
  {
    if stats.total == 0 then None
    else
      RoundedPercent(stats.good + stats.dueSoon, stats.total);
      Some((200 * (stats.good + stats.dueSoon) + stats.total) / (2 * stats.total))
  }

  /** `(200·part + total) / (2·total)` is `100·part/total` rounded half up, and a share of at
      most the whole is at most 100 percent. */
  lemma RoundedPercent(part: nat, total: nat)
    requires total > 0
    ensures var q := (200 * part + total) / (2 * total);
      2 * total * q <= 200 * part + total < 2 * total * (q + 1)
      && q >= 0 && (part <= total ==> q <= 100)
  {
    var num, den := 200 * part + total, 2 * total;
    var q := num / den;
    DivBounds(num, den);
    if part <= total && q > 100 {
      MulMonotone(den, q, 101);
      assert false;
    }
  }

  /** Euclidean division brackets the dividend between two multiples of the divisor. */
  lemma DivBounds(num: nat, den: int)
    requires den > 0
    ensures num / den >= 0
    ensures den * (num / den) <= num < den * (num / den + 1)
  {
    var q, rem := num / den, num % den;
    assert num == den * q + rem;
    assert den * (q + 1) == den * q + den;
  }

  /** Multiplying by a positive number keeps order. */
  lemma MulMonotone(a: int, b: int, c: int)
    requires a > 0 && b >= c
    ensures a * b >= a * c
  {
    assert a * b - a * c == a * (b - c);
  }

  /** The "Scheduled Maintenance" figure of the health summary. */
  function ScheduledMaintenance(stats: Stats): nat {
    stats.urgent + stats.dueSoon
  }

  /** The number of aircraft due for a check between today and `limit` days from now. */
  function CountDueWithin(aircraft: seq<Aircraft>, daysUntil: DayCounter, limit: int): nat
    decreases |aircraft|
  {
    if aircraft == [] then 0
    else
      var d := daysUntil(aircraft[|aircraft| - 1].nextCheck);
      CountDueWithin(aircraft[..|aircraft| - 1], daysUntil, limit)
      + (if AtLeast(d, 0) && AtMost(d, limit) then 1 else 0)
  }

  /** Scheduled maintenance counts exactly the aircraft due within the next 90 days. */
  lemma {:induction false} ScheduledIsDueWithin90(aircraft: seq<Aircraft>, daysUntil: DayCounter)
    ensures CountInBand(aircraft, daysUntil, Urgent) + CountInBand(aircraft, daysUntil, DueSoon)
         == CountDueWithin(aircraft, daysUntil, 90)
    decreases |aircraft|
  {
    if aircraft != [] {
      ScheduledIsDueWithin90(aircraft[..|aircraft| - 1], daysUntil);
    }
  }

  /** The scheduled figure of the stats the overview computes is the number due within 90 days. */
  lemma ScheduledMaintenanceCounts(aircraft: seq<Aircraft>, daysUntil: DayCounter, stats: Stats)
    requires stats.urgent == CountInBand(aircraft, daysUntil, Urgent)
    requires stats.dueSoon == CountInBand(aircraft, daysUntil, DueSoon)
    ensures ScheduledMaintenance(stats) == CountDueWithin(aircraft, daysUntil, 90)
  {
    ScheduledIsDueWithin90(aircraft, daysUntil);
  }
}
