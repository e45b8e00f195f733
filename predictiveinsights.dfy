/** The predictive-insights panel: up to three rule-based insights (high flight hours, a
    predominant model, a seasonal peak) and the maintenance-capacity figure for the next 30
    days. */
module PredictiveInsights {
  import opened Wrappers
  import opened JsString
  import opened Seqs
  import opened Status
  import opened AircraftCard
  import opened MaintenanceOverview

  /** A zero-based month number, as `Date.prototype.getMonth` returns it. */
  type Month = m: int | 0 <= m < 12

  /** How the panel reads the month of a next-check cell; `None` stands for the `NaN` that an
      unparseable or missing date gives. The date parser stands behind this function. */
  type MonthOf = Option<string> -> Option<Month>

  /** One insight card. The high-usage card carries the aircraft it is about. */
  datatype Insight =
    | HighUsage(aircraft: seq<Aircraft>)
    | FleetOptimization(count: nat, model: string)
    | Seasonal(count: nat)
  {
    /** The position of the rule that produces this insight. */
    function Rank(): nat {
      match this
      case HighUsage(_) => 0
      case FleetOptimization(_, _) => 1
      case Seasonal(_) => 2
    }

    /** The `type` field. */
    function Kind(): string {
      match this
      case HighUsage(_) => "high-usage"
      case FleetOptimization(_, _) => "fleet-optimization"
      case Seasonal(_) => "seasonal"
    }

    /** The `severity` field. */
    function Severity(): string {
      if HighUsage? then "warning" else "info"
    }

    function Title(): string {
      match this
      case HighUsage(_) => "High Flight Hours Detected"
      case FleetOptimization(_, _) => "Fleet Standardization Opportunity"
      case Seasonal(_) => "Winter Maintenance Peak"
    }

    /** The number the description starts with. */
    function Count(): nat {
      match this
      case HighUsage(list) => |list|
      case FleetOptimization(count, _) => count
      case Seasonal(count) => count
    }

    /** The text after the leading number of the description. */
    function DescriptionTail(): string {
      match this
      case HighUsage(_) => " " + "aircraft with >4000 flight hours may require additional inspections"
      case FleetOptimization(_, model) => " " + model + " aircraft in fleet"
      case Seasonal(_) => " " + "aircraft scheduled for maintenance in winter months"
    }

    function Description(): string {
      IntToString(Count()) + DescriptionTail()
    }

    function Recommendation(): string {
      match this
      case HighUsage(_) => "Schedule detailed component inspections"
      case FleetOptimization(_, _) => "Consider bulk parts procurement and specialized maintenance teams"
      case Seasonal(_) => "Prepare for increased hangar utilization and parts inventory"
    }
  }

  /** `parseInt` of an insight's description gives back the count the insight reports. */
  lemma DescriptionReadsBack(i: Insight)
    ensures ParseInt(i.Description()) == Some(i.Count())
  {
    ParseIntOfIntToString(i.Count(), i.DescriptionTail());
  }

  /** The colour and icon of a card, chosen by its severity. */
  datatype SeverityStyle = SeverityStyle(color: string, icon: string)

  function SeverityConfig(severity: string): (r: SeverityStyle)
    ensures severity == "warning" ==> r == SeverityStyle("border-warning text-warning", "alert")
    ensures severity == "info" ==> r == SeverityStyle("border-info text-info", "lightbulb")
    ensures severity != "warning" && severity != "info" ==>
      r == SeverityStyle("border-muted text-muted-foreground", "line-chart")
  {
    if severity == "warning" then SeverityStyle("border-warning text-warning", "alert")
    else if severity == "info" then SeverityStyle("border-info text-info", "lightbulb")
    else SeverityStyle("border-muted text-muted-foreground", "line-chart")
  }

  /** Only the high-usage card shows the alert icon; the other two show the light bulb, and no
      insight falls through to the default style. */
  lemma InsightIcons(i: Insight)
    ensures SeverityConfig(i.Severity()).icon == "alert" <==> i.HighUsage?
    ensures SeverityConfig(i.Severity()).icon == "lightbulb" <==> !i.HighUsage?
  {
  }

  // ---------------------------------------------------------------------------------------
  // High flight hours

  /** `a.flightHours > 4000`; a `NaN` hour count is not high. */
  predicate IsHighHours(a: Aircraft) {
    HoursAbove(a.flightHours, 4000)
  }

  // ---------------------------------------------------------------------------------------
  // Grouping by model

  /** The property key the model becomes in the grouping object: a missing model is the key
      "undefined". */
  function ModelKey(a: Aircraft): string {
    a.model.GetOr("undefined")
  }

  /** The number of aircraft whose model key is `key`. */
  function ModelCount(aircraft: seq<Aircraft>, key: string): nat
    decreases |aircraft|
  {
    if aircraft == [] then 0
    else
      ModelCount(aircraft[..|aircraft| - 1], key)
      + (if ModelKey(aircraft[|aircraft| - 1]) == key then 1 else 0)
  }

  /** The distinct model keys in order of first occurrence, the order in which the grouping
      object acquires its properties. */
  function DistinctModels(aircraft: seq<Aircraft>): seq<string>
    decreases |aircraft|
  {
    if aircraft == [] then []
    else
      var init := DistinctModels(aircraft[..|aircraft| - 1]);
      var key := ModelKey(aircraft[|aircraft| - 1]);
      if key in init then init else init + [key]
  }

  /** The sum of the counts of `keys`. */
  function SumCounts(keys: seq<string>, aircraft: seq<Aircraft>): nat
    decreases |keys|
  {
    if keys == [] then 0
    else SumCounts(keys[..|keys| - 1], aircraft) + ModelCount(aircraft, keys[|keys| - 1])
  }

  /** No key occurs twice. */
  predicate Distinct(keys: seq<string>) {
    forall i, j :: 0 <= i < j < |keys| ==> keys[i] != keys[j]
  }

  lemma ModelCountSnoc(aircraft: seq<Aircraft>, a: Aircraft, key: string)
    ensures ModelCount(aircraft + [a], key)
         == ModelCount(aircraft, key) + (if ModelKey(a) == key then 1 else 0)
  {
    assert (aircraft + [a])[..|aircraft|] == aircraft;
  }

  lemma DistinctModelsSnoc(aircraft: seq<Aircraft>, a: Aircraft)
    ensures DistinctModels(aircraft + [a])
         == if ModelKey(a) in DistinctModels(aircraft) then DistinctModels(aircraft)
            else DistinctModels(aircraft) + [ModelKey(a)]
  {
    assert (aircraft + [a])[..|aircraft|] == aircraft;
  }

  /** A key is listed exactly when some aircraft has it. */
  lemma {:induction false} DistinctModelsMembers(aircraft: seq<Aircraft>, key: string)
    ensures key in DistinctModels(aircraft)
        <==> exists j :: 0 <= j < |aircraft| && ModelKey(aircraft[j]) == key
    decreases |aircraft|
  {
    if aircraft != [] {
      var init := aircraft[..|aircraft| - 1];
      DistinctModelsMembers(init, key);
      assert forall j :: 0 <= j < |init| ==> init[j] == aircraft[j];
      if exists j :: 0 <= j < |aircraft| && ModelKey(aircraft[j]) == key {
        var j :| 0 <= j < |aircraft| && ModelKey(aircraft[j]) == key;
        if j < |init| {
          assert ModelKey(init[j]) == key;
        }
      }
    }
  }

  /** The listed keys are distinct. */
  lemma {:induction false} DistinctModelsDistinct(aircraft: seq<Aircraft>)
    ensures Distinct(DistinctModels(aircraft))
    decreases |aircraft|
  {
    if aircraft != [] {
      DistinctModelsDistinct(aircraft[..|aircraft| - 1]);
    }
  }

  /** A key has a non-zero count exactly when it is listed. */
  lemma {:induction false} ModelCountPositive(aircraft: seq<Aircraft>, key: string)
    ensures ModelCount(aircraft, key) > 0 <==> key in DistinctModels(aircraft)
    decreases |aircraft|
  {
    if aircraft != [] {
      ModelCountPositive(aircraft[..|aircraft| - 1], key);
    }
  }

  /** One more aircraft adds one to the sum over distinct keys when its key is among them. */
  lemma {:induction false} SumCountsSnoc(keys: seq<string>, aircraft: seq<Aircraft>, a: Aircraft)
    requires Distinct(keys)
    ensures SumCounts(keys, aircraft + [a])
         == SumCounts(keys, aircraft) + (if ModelKey(a) in keys then 1 else 0)
    decreases |keys|
  {
    if keys != [] {
      var init := keys[..|keys| - 1];
      assert Distinct(init);
      SumCountsSnoc(init, aircraft, a);
      ModelCountSnoc(aircraft, a, keys[|keys| - 1]);
      assert keys == init + [keys[|keys| - 1]];
    }
  }

  lemma SumCountsAppendKey(keys: seq<string>, key: string, aircraft: seq<Aircraft>)
    ensures SumCounts(keys + [key], aircraft) == SumCounts(keys, aircraft) + ModelCount(aircraft, key)
  {
    assert (keys + [key])[..|keys|] == keys;
  }

  /** The group counts add up to the fleet size. */
  lemma {:induction false} ModelCountsSum(aircraft: seq<Aircraft>)
    ensures SumCounts(DistinctModels(aircraft), aircraft) == |aircraft|
    decreases |aircraft|
  {
    if aircraft != [] {
      var init, a := aircraft[..|aircraft| - 1], aircraft[|aircraft| - 1];
      assert aircraft == init + [a];
      var keys := DistinctModels(init);
      ModelCountsSum(init);
      DistinctModelsDistinct(init);
      DistinctModelsSnoc(init, a);
      SumCountsSnoc(keys, init, a);
      if ModelKey(a) !in keys {
        SumCountsAppendKey(keys, ModelKey(a), aircraft);
        ModelCountPositive(init, ModelKey(a));
        ModelCountSnoc(init, a, ModelKey(a));
      }
    }
  }

  /** The `reduce` that counts the aircraft per model into an object, with the object's keys
      in insertion order. */
  method GroupByModel(aircraft: seq<Aircraft>) returns (groups: map<string, nat>, keys: seq<string>)
    ensures groups == ModelGroups(aircraft)
    ensures keys == DistinctModels(aircraft)
  {
    groups, keys := map[], [];
    for i := 0 to |aircraft|
      invariant keys == DistinctModels(aircraft[..i])
      invariant forall key :: key in groups <==> key in keys
      invariant forall key :: key in groups ==> groups[key] == ModelCount(aircraft[..i], key)
    {
      var key := ModelKey(aircraft[i]);
      assert aircraft[..i + 1] == aircraft[..i] + [aircraft[i]];
      DistinctModelsSnoc(aircraft[..i], aircraft[i]);
      forall k | k in groups
        ensures ModelCount(aircraft[..i + 1], k) == groups[k] + (if k == key then 1 else 0)
      {
        ModelCountSnoc(aircraft[..i], aircraft[i], k);
      }
      ModelCountSnoc(aircraft[..i], aircraft[i], key);
      var previous := 0;
      if key in groups {
        previous := groups[key];
      } else {
        ModelCountPositive(aircraft[..i], key);
        keys := keys + [key];
      }
      groups := groups[key := previous + 1];
    }
    assert aircraft[..|aircraft|] == aircraft;
  }

  /** The grouping object: each listed model key with its count. */
  function ModelGroups(aircraft: seq<Aircraft>): map<string, nat> {
    map key | key in DistinctModels(aircraft) :: ModelCount(aircraft, key)
  }

  /** The grouping object holds one entry per model of the fleet, with that model's count, and
      the counts add up to the fleet size. */
  lemma ModelGroupsCount(aircraft: seq<Aircraft>)
    ensures forall key :: (key in ModelGroups(aircraft)
        <==> exists j :: 0 <= j < |aircraft| && ModelKey(aircraft[j]) == key)
    ensures forall key :: key in ModelGroups(aircraft) ==> ModelGroups(aircraft)[key] == ModelCount(aircraft, key)
    ensures SumCounts(DistinctModels(aircraft), aircraft) == |aircraft|
  {
    forall key
      ensures key in DistinctModels(aircraft) <==> exists j :: 0 <= j < |aircraft| && ModelKey(aircraft[j]) == key
    {
      DistinctModelsMembers(aircraft, key);
    }
    ModelCountsSum(aircraft);
  }

  /** The position of the entry a stable sort by descending count puts first: the first key
      with the largest count. */
  function PredominantIndex(keys: seq<string>, groups: map<string, nat>): (r: nat)
    requires |keys| > 0
    requires forall key :: key in keys ==> key in groups
    ensures r < |keys|
    ensures forall j :: 0 <= j < |keys| ==> groups[keys[j]] <= groups[keys[r]]
    ensures forall j :: 0 <= j < r ==> groups[keys[j]] < groups[keys[r]]
    decreases |keys|
  {
    if |keys| == 1 then 0
    else
      var i := PredominantIndex(keys[..|keys| - 1], groups);
      if groups[keys[|keys| - 1]] > groups[keys[i]] then |keys| - 1 else i
  }

  // ---------------------------------------------------------------------------------------
  // Seasonal peak

  /** `month >= 5 || month <= 8`; both comparisons are false for `NaN`. */
  predicate SeasonalMonth(month: Option<Month>) {
    month.Some? && (month.value >= 5 || month.value <= 8)
  }

  /** The seasonal test holds for every month, so it only excludes dates that do not parse. */
  lemma SeasonalMonthIsAnyMonth(month: Option<Month>)
    ensures SeasonalMonth(month) <==> month.Some?
  {
  }

  /** The aircraft counted as due in the winter months. */
  function Winter(aircraft: seq<Aircraft>, monthOf: MonthOf): (r: seq<Aircraft>)
    ensures forall k :: 0 <= k < |r| ==> monthOf(r[k].nextCheck).Some?
  {
    FilterSound(aircraft, (a: Aircraft) => SeasonalMonth(monthOf(a.nextCheck)));
    Filter(aircraft, (a: Aircraft) => SeasonalMonth(monthOf(a.nextCheck)))
  }

  /** The winter list is every aircraft whose next check has a month, in input order. */
  lemma WinterIsDatedAircraft(aircraft: seq<Aircraft>, monthOf: MonthOf)
    ensures Winter(aircraft, monthOf) == Filter(aircraft, (a: Aircraft) => monthOf(a.nextCheck).Some?)
  {
    forall a: Aircraft
      ensures SeasonalMonth(monthOf(a.nextCheck)) == monthOf(a.nextCheck).Some?
    {
      SeasonalMonthIsAnyMonth(monthOf(a.nextCheck));
    }
    FilterSame(aircraft, (a: Aircraft) => SeasonalMonth(monthOf(a.nextCheck)), (a: Aircraft) => monthOf(a.nextCheck).Some?);
  }

  /** `w > n * 0.4` over exact rationals is `5·w > 2·n`. */
  lemma FortyPercent(w: nat, n: nat)
    ensures w as real > n as real * 0.4 <==> 5 * w > 2 * n
  {
  }

  // ---------------------------------------------------------------------------------------
  // The insights

  /** The high-usage rule: one card listing the high-hours aircraft, if there is any. */
  function HighUsageCards(aircraft: seq<Aircraft>): (r: seq<Insight>)
    ensures |r| <= 1 && forall i :: i in r ==> i.HighUsage?
  {
    var highHoursAircraft := Filter(aircraft, IsHighHours);
    if |highHoursAircraft| > 0 then [HighUsage(highHoursAircraft)] else []
  }

  /** The fleet-optimisation rule: one card for the predominant model when more than two
      aircraft share it. */
  function FleetCards(aircraft: seq<Aircraft>): (r: seq<Insight>)
    ensures |r| <= 1 && forall i :: i in r ==> i.FleetOptimization?
  {
    var keys, groups := DistinctModels(aircraft), ModelGroups(aircraft);
    if |keys| == 0 then []
    else
      var top := PredominantIndex(keys, groups);
      if groups[keys[top]] > 2 then [FleetOptimization(groups[keys[top]], keys[top])] else []
  }

  /** The seasonal rule: one card when the winter list exceeds 40% of the fleet. */
  function SeasonalCards(aircraft: seq<Aircraft>, monthOf: MonthOf): (r: seq<Insight>)
    ensures |r| <= 1 && forall i :: i in r ==> i.Seasonal?
  {
    var winterMonths := Winter(aircraft, monthOf);
    if |winterMonths| as real > |aircraft| as real * 0.4 then [Seasonal(|winterMonths|)] else []
  }

  /** The insight list: nothing for an empty fleet, otherwise the three rules in order. */
  function Insights(aircraft: seq<Aircraft>, monthOf: MonthOf): seq<Insight> {
    if |aircraft| == 0 then []
    else HighUsageCards(aircraft) + FleetCards(aircraft) + SeasonalCards(aircraft, monthOf)
  }

  /** The rules, applied in order, each pushing at most one card. */
  method GeneratePredictiveInsights(aircraft: seq<Aircraft>, monthOf: MonthOf)
    returns (insights: seq<Insight>)
    ensures insights == Insights(aircraft, monthOf)
  {
    if |aircraft| == 0 {
      return [];
    }
    insights := [];

    var highHoursAircraft := Filter(aircraft, IsHighHours);
    if |highHoursAircraft| > 0 {
      insights := insights + [HighUsage(highHoursAircraft)];
    }
    assert insights == HighUsageCards(aircraft);

    var groups, keys := GroupByModel(aircraft);
    if |keys| > 0 {
      var top := PredominantIndex(keys, groups);
      if groups[keys[top]] > 2 {
        insights := insights + [FleetOptimization(groups[keys[top]], keys[top])];
      }
    }
    assert insights == HighUsageCards(aircraft) + FleetCards(aircraft);

    var winterMonths := Winter(aircraft, monthOf);
    if |winterMonths| as real > |aircraft| as real * 0.4 {
      insights := insights + [Seasonal(|winterMonths|)];
    }
  }

  /** The high-usage card appears exactly when some aircraft has more than 4000 hours, and it
      lists exactly those aircraft in input order. */
  lemma HighUsageRule(aircraft: seq<Aircraft>)
    ensures |HighUsageCards(aircraft)| > 0 <==> exists k :: 0 <= k < |aircraft| && IsHighHours(aircraft[k])
    ensures forall i :: i in HighUsageCards(aircraft) ==>
      i == HighUsage(Filter(aircraft, IsHighHours)) && ParseInt(i.Description()) == Some(|i.aircraft|)
  {
    FilterNonEmpty(aircraft, IsHighHours);
    DescriptionReadsBack(HighUsage(Filter(aircraft, IsHighHours)));
  }

  /** The fleet card appears exactly when some model is shared by more than two aircraft; it
      names a model of the fleet, reports that model's count, and no model has more. */
  lemma FleetRule(aircraft: seq<Aircraft>)
    ensures |FleetCards(aircraft)| > 0
        <==> exists k :: 0 <= k < |aircraft| && ModelCount(aircraft, ModelKey(aircraft[k])) > 2
    ensures forall i :: i in FleetCards(aircraft) ==>
      i.FleetOptimization? && i.count == ModelCount(aircraft, i.model)
      && (exists k :: 0 <= k < |aircraft| && ModelKey(aircraft[k]) == i.model)
      && forall k :: 0 <= k < |aircraft| ==> ModelCount(aircraft, ModelKey(aircraft[k])) <= i.count
  {
    var keys, groups := DistinctModels(aircraft), ModelGroups(aircraft);
    if |keys| > 0 {
      var top := PredominantIndex(keys, groups);
      var model := keys[top];
      var count := groups[model];
      assert count == ModelCount(aircraft, model);
      assert FleetCards(aircraft) == if count > 2 then [FleetOptimization(count, model)] else [];
      DistinctModelsMembers(aircraft, model);
      forall k | 0 <= k < |aircraft|
        ensures ModelCount(aircraft, ModelKey(aircraft[k])) <= count
      {
        DistinctModelsMembers(aircraft, ModelKey(aircraft[k]));
        var j :| 0 <= j < |keys| && keys[j] == ModelKey(aircraft[k]);
        assert groups[keys[j]] <= count;
      }
    }
  }

  /** The seasonal card appears exactly when five times the winter count exceeds twice the
      fleet size, and it reports the winter count. */
  lemma SeasonalRule(aircraft: seq<Aircraft>, monthOf: MonthOf)
    ensures |SeasonalCards(aircraft, monthOf)| > 0 <==> 5 * |Winter(aircraft, monthOf)| > 2 * |aircraft|
    ensures forall i :: i in SeasonalCards(aircraft, monthOf) ==>
      i == Seasonal(|Winter(aircraft, monthOf)|)
  {
    FortyPercent(|Winter(aircraft, monthOf)|, |aircraft|);
  }

  /** An empty fleet yields no insight; otherwise there are at most three, one per rule, in
      rule order. */
  lemma InsightsShape(aircraft: seq<Aircraft>, monthOf: MonthOf)
    ensures aircraft == [] ==> Insights(aircraft, monthOf) == []
    ensures |Insights(aircraft, monthOf)| <= 3
    ensures var r := Insights(aircraft, monthOf);
      forall j, k :: 0 <= j < k < |r| ==> r[j].Rank() < r[k].Rank()
  {
    if aircraft != [] {
      RankedCards(HighUsageCards(aircraft), FleetCards(aircraft), SeasonalCards(aircraft, monthOf));
    }
  }

  /** At most one card from each rule, placed in rule order, gives strictly increasing ranks. */
  lemma RankedCards(high: seq<Insight>, fleet: seq<Insight>, seasonal: seq<Insight>)
    requires |high| <= 1 && forall i :: i in high ==> i.HighUsage?
    requires |fleet| <= 1 && forall i :: i in fleet ==> i.FleetOptimization?
    requires |seasonal| <= 1 && forall i :: i in seasonal ==> i.Seasonal?
    ensures var r := high + fleet + seasonal;
      |r| <= 3 && forall j, k :: 0 <= j < k < |r| ==> r[j].Rank() < r[k].Rank()
  {
    var r := high + fleet + seasonal;
    forall j | 0 <= j < |r|
      ensures r[j].Rank() == if j < |high| then 0 else if j < |high| + |fleet| then 1 else 2
    {
      if j < |high| {
        assert r[j] == high[j] && high[j] in high;
      } else if j < |high| + |fleet| {
        assert r[j] == fleet[j - |high|] && fleet[j - |high|] in fleet;
      } else {
        assert r[j] == seasonal[j - |high| - |fleet|] && seasonal[j - |high| - |fleet|] in seasonal;
      }
    }
  }

  // ---------------------------------------------------------------------------------------
  // Maintenance capacity

  datatype CapacityData = CapacityData(next30Days: nat, capacity: nat, utilizationPercentage: real)

  /** The monthly capacity the panel assumes. */
  const Capacity: nat := 8

  /** The aircraft due within the next 30 days measured against the capacity, with the
      percentage capped at 100. */
  function CalculateMaintenanceCapacity(aircraft: seq<Aircraft>, daysUntil: DayCounter): (r: CapacityData)
    ensures r.next30Days == CountDueWithin(aircraft, daysUntil, 30)
    ensures r.capacity == Capacity
    ensures 0.0 <= r.utilizationPercentage <= 100.0
    ensures r.next30Days <= Capacity ==> r.utilizationPercentage * (Capacity as real) == 100.0 * (r.next30Days as real)
    ensures r.next30Days >= Capacity ==> r.utilizationPercentage == 100.0
  {
    var next30Days := CountDueWithin(aircraft, daysUntil, 30);
    var share := (next30Days as real / Capacity as real) * 100.0;
    CapacityData(next30Days, Capacity, if share < 100.0 then share else 100.0)
  }

  /** The high-utilisation warning (and the warning colour of the percentage). */
  predicate HighUtilization(c: CapacityData) {
    c.utilizationPercentage > 80.0
  }

  /** The warning shows exactly when seven or more aircraft are due within 30 days. */
  lemma HighUtilizationThreshold(aircraft: seq<Aircraft>, daysUntil: DayCounter)
    ensures var c := CalculateMaintenanceCapacity(aircraft, daysUntil);
      HighUtilization(c) <==> c.next30Days >= 7
  {
    var c := CalculateMaintenanceCapacity(aircraft, daysUntil);
    if c.next30Days <= Capacity {
      assert c.utilizationPercentage == 12.5 * (c.next30Days as real);
    }
  }

  /** The aircraft due within 30 days are exactly the urgent ones of the status bands. */
  lemma {:induction false} Next30DaysIsUrgentCount(aircraft: seq<Aircraft>, daysUntil: DayCounter)
    ensures CalculateMaintenanceCapacity(aircraft, daysUntil).next30Days
         == CountInBand(aircraft, daysUntil, Urgent)
    decreases |aircraft|
  {
    if aircraft != [] {
      Next30DaysIsUrgentCount(aircraft[..|aircraft| - 1], daysUntil);
    }
  }

  /** The percentage as displayed: `Math.round`, which rounds halves up. */
  function DisplayedUtilization(aircraft: seq<Aircraft>, daysUntil: DayCounter): (r: int)
    ensures 0 <= r <= 100
    ensures var u := CalculateMaintenanceCapacity(aircraft, daysUntil).utilizationPercentage;
      (r as real) - 0.5 <= u < (r as real) + 0.5
  {
    (CalculateMaintenanceCapacity(aircraft, daysUntil).utilizationPercentage + 0.5).Floor
  }
}
