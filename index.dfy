/** The dashboard page: the midnight-normalised day count, the status classifier, the fleet
    list view (status filter, tail-number search, sort by days) and the page's view state. */
module Index {
  import opened Wrappers
  import opened JsString
  import opened Seqs
  import opened Status
  import opened AircraftCard
  import opened MaintenanceOverview

  // ---------------------------------------------------------------------------------------
  // Day counts and statuses

  /** The local calendar day on which a date text falls, counted from a fixed epoch; `None`
      when `new Date(text)` is an invalid date. The date parser stands behind this function. */
  type DayNumber = string -> Option<int>

  /** `calculateDaysUntilMaintenance`: both dates are moved to midnight, so the count is the
      difference of the day numbers; a missing or invalid date gives `NaN`. */
  function DaysUntilMaintenance(dayNumber: DayNumber, today: int, nextCheck: Option<string>): (r: Days)
    ensures r.Whole? <==> nextCheck.Some? && dayNumber(nextCheck.value).Some?
    ensures r.Whole? ==> r.n == dayNumber(nextCheck.value).value - today
  {
    if nextCheck.None? then NaN
    else
      match dayNumber(nextCheck.value)
      case None => NaN
      case Some(day) => Whole(day - today)
  }

  /** One day later every count is one smaller. */
  lemma DaysUntilNextDay(dayNumber: DayNumber, today: int, nextCheck: Option<string>)
    ensures var before, after := DaysUntilMaintenance(dayNumber, today, nextCheck),
                                 DaysUntilMaintenance(dayNumber, today + 1, nextCheck);
      before.Whole? == after.Whole? && (before.Whole? ==> after.n == before.n - 1)
  {
  }

  /** The page's day counter, for a given day number of today. */
  function MidnightDayCounter(dayNumber: DayNumber, today: int): DayCounter {
    nextCheck => DaysUntilMaintenance(dayNumber, today, nextCheck)
  }

  /** The status of a day count: the classifier's ladder of three comparisons. */
  function StatusOfDays(daysUntil: Days): (r: MaintenanceStatus)
    ensures InBand(r, daysUntil)
  {
    if Below(daysUntil, 0) then Overdue
    else if AtMost(daysUntil, 30) then Urgent
    else if AtMost(daysUntil, 90) then DueSoon
    else Good
  }

  /** `getMaintenanceStatus`: the status of an aircraft's midnight-normalised day count. */
  function GetMaintenanceStatus(a: Aircraft, dayNumber: DayNumber, today: int): (r: MaintenanceStatus)
    ensures InBand(r, DaysUntilMaintenance(dayNumber, today, a.nextCheck))
  {
    StatusOfDays(DaysUntilMaintenance(dayNumber, today, a.nextCheck))
  }

  /** The classifier returns the status whose band holds the count, and no other. */
  lemma StatusIsTheBand(daysUntil: Days, s: MaintenanceStatus)
    ensures StatusOfDays(daysUntil) == s <==> InBand(s, daysUntil)
  {
    BandsPartition(daysUntil);
  }

  /** The thresholds on either side of each boundary. */
  lemma StatusBoundaries()
    ensures StatusOfDays(Whole(-1)) == Overdue
    ensures StatusOfDays(Whole(0)) == Urgent && StatusOfDays(Whole(30)) == Urgent
    ensures StatusOfDays(Whole(31)) == DueSoon && StatusOfDays(Whole(90)) == DueSoon
    ensures StatusOfDays(Whole(91)) == Good
  {
  }

  /** For the same day count, the aircraft card shows the status string of the page's
      classifier. */
  lemma CardAgreesWithPage(daysUntil: Days)
    ensures CardStatus(daysUntil).status == Name(StatusOfDays(daysUntil))
  {
    BandsPartition(daysUntil);
  }

  /** For the same day counter, the overview's buckets count the aircraft the page's
      classifier puts in each status. */
  lemma {:induction false} OverviewAgreesWithPage(
    aircraft: seq<Aircraft>, dayNumber: DayNumber, today: int, s: MaintenanceStatus)
    ensures CountInBand(aircraft, MidnightDayCounter(dayNumber, today), s)
         == |Filter(aircraft, (a: Aircraft) => GetMaintenanceStatus(a, dayNumber, today) == s)|
    decreases |aircraft|
  {
    if aircraft != [] {
      var last := aircraft[|aircraft| - 1];
      OverviewAgreesWithPage(aircraft[..|aircraft| - 1], dayNumber, today, s);
      StatusIsTheBand(DaysUntilMaintenance(dayNumber, today, last.nextCheck), s);
    }
  }

  // ---------------------------------------------------------------------------------------
  // The list view

  /** The status filter: the aircraft of the chosen status, or all of them when none is
      chosen. */
  function StatusFiltered(
    aircraftData: seq<Aircraft>, maintenanceFilter: Option<MaintenanceStatus>, dayNumber: DayNumber, today: int)
    : seq<Aircraft>
  {
    if maintenanceFilter.None? then aircraftData
    else Filter(aircraftData, (a: Aircraft) => GetMaintenanceStatus(a, dayNumber, today) == maintenanceFilter.value)
  }

  /** The tail number contains the search term, both lower-cased. */
  predicate MatchesSearch(a: Aircraft, searchTerm: string) {
    Includes(ToLower(a.tailNumber), ToLower(searchTerm))
  }

  /** The search filter. */
  function SearchFiltered(aircraft: seq<Aircraft>, searchTerm: string): seq<Aircraft> {
    Filter(aircraft, (a: Aircraft) => MatchesSearch(a, searchTerm))
  }

  /** The aircraft the view shows, before sorting. */
  function Selected(
    aircraftData: seq<Aircraft>, maintenanceFilter: Option<MaintenanceStatus>, searchTerm: string,
    dayNumber: DayNumber, today: int): seq<Aircraft>
  {
    SearchFiltered(StatusFiltered(aircraftData, maintenanceFilter, dayNumber, today), searchTerm)
  }

  /** An aircraft passes both filters. */
  predicate Passes(
    a: Aircraft, maintenanceFilter: Option<MaintenanceStatus>, searchTerm: string, dayNumber: DayNumber, today: int)
  {
    (maintenanceFilter.Some? ==> GetMaintenanceStatus(a, dayNumber, today) == maintenanceFilter.value)
    && MatchesSearch(a, searchTerm)
  }

  /** Soundness and completeness of the filters: an aircraft that passes both occurs as often
      as in the data, any other not at all. */
  lemma SelectedExactly(
    aircraftData: seq<Aircraft>, maintenanceFilter: Option<MaintenanceStatus>, searchTerm: string,
    dayNumber: DayNumber, today: int, x: Aircraft)
    ensures multiset(Selected(aircraftData, maintenanceFilter, searchTerm, dayNumber, today))[x]
         == if Passes(x, maintenanceFilter, searchTerm, dayNumber, today) then multiset(aircraftData)[x] else 0
  {
    var filtered := StatusFiltered(aircraftData, maintenanceFilter, dayNumber, today);
    FilterCount(filtered, (a: Aircraft) => MatchesSearch(a, searchTerm), x);
    if maintenanceFilter.Some? {
      FilterCount(aircraftData,
        (a: Aircraft) => GetMaintenanceStatus(a, dayNumber, today) == maintenanceFilter.value, x);
    }
  }

  /** Every selected aircraft passes both filters. */
  lemma SelectedSound(
    aircraftData: seq<Aircraft>, maintenanceFilter: Option<MaintenanceStatus>, searchTerm: string,
    dayNumber: DayNumber, today: int)
    ensures var r := Selected(aircraftData, maintenanceFilter, searchTerm, dayNumber, today);
      forall k :: 0 <= k < |r| ==> Passes(r[k], maintenanceFilter, searchTerm, dayNumber, today)
  {
    var r := Selected(aircraftData, maintenanceFilter, searchTerm, dayNumber, today);
    forall k | 0 <= k < |r|
      ensures Passes(r[k], maintenanceFilter, searchTerm, dayNumber, today)
    {
      SelectedExactly(aircraftData, maintenanceFilter, searchTerm, dayNumber, today, r[k]);
      assert r[k] in multiset(r);
    }
  }

  /** With no status filter and an empty search term the view holds all the data, in order. */
  lemma SelectedAll(aircraftData: seq<Aircraft>, dayNumber: DayNumber, today: int)
    ensures Selected(aircraftData, None, "", dayNumber, today) == aircraftData
  {
    forall k | 0 <= k < |aircraftData|
      ensures MatchesSearch(aircraftData[k], "")
    {
      IncludesEmpty(ToLower(aircraftData[k].tailNumber));
    }
    FilterKeepsAll(aircraftData, (a: Aircraft) => MatchesSearch(a, ""));
  }

  /** A stat-card click with an empty search term lists as many aircraft as the card counts. */
  lemma StatCardListsItsCount(aircraftData: seq<Aircraft>, dayNumber: DayNumber, today: int, s: MaintenanceStatus)
    ensures |Selected(aircraftData, Some(s), "", dayNumber, today)|
         == CountInBand(aircraftData, MidnightDayCounter(dayNumber, today), s)
  {
    var filtered := StatusFiltered(aircraftData, Some(s), dayNumber, today);
    SelectedAll(filtered, dayNumber, today);
    assert Selected(aircraftData, Some(s), "", dayNumber, today) == Selected(filtered, None, "", dayNumber, today);
    OverviewAgreesWithPage(aircraftData, dayNumber, today, s);
  }

  // ---------------------------------------------------------------------------------------
  // Sorting by days

  datatype SortOrder = Asc | Desc

  /** The sort comparator's value: `daysA - daysB` ascending, `daysB - daysA` descending, and
      `NaN` when either count is `NaN`. */
  function Compare(order: SortOrder, daysA: Days, daysB: Days): (r: Days)
    ensures r.Whole? <==> daysA.Whole? && daysB.Whole?
    ensures r.Whole? && order == Asc ==> (r.n > 0 <==> daysA.n > daysB.n)
    ensures r.Whole? && order == Desc ==> (r.n > 0 <==> daysA.n < daysB.n)
  {
    if daysA.NaN? || daysB.NaN? then NaN
    else if order == Asc then Whole(daysA.n - daysB.n)
    else Whole(daysB.n - daysA.n)
  }

  /** The comparator puts `b` before `a`: it returns a positive number. */
  predicate OutOfOrder(order: SortOrder, daysA: Days, daysB: Days) {
    var c := Compare(order, daysA, daysB);
    c.Whole? && c.n > 0
  }

  /** Two whole day counts in the chosen order. */
  predicate InOrder(order: SortOrder, daysA: Days, daysB: Days) {
    daysA.Whole? && daysB.Whole? && (if order == Asc then daysA.n <= daysB.n else daysA.n >= daysB.n)
  }

  /** Every aircraft has a whole day count. */
  predicate AllWhole(s: seq<Aircraft>, counter: DayCounter) {
    forall k :: 0 <= k < |s| ==> counter(s[k].nextCheck).Whole?
  }

  /** `s[lo..hi]` is in the chosen order of day counts. */
  predicate SortedRange(s: seq<Aircraft>, counter: DayCounter, order: SortOrder, lo: int, hi: int)
    requires 0 <= lo <= hi <= |s|
  {
    forall p, q :: lo <= p < q < hi ==> InOrder(order, counter(s[p].nextCheck), counter(s[q].nextCheck))
  }

  /** Non-decreasing day counts ascending, non-increasing descending. */
  predicate SortedByDays(s: seq<Aircraft>, counter: DayCounter, order: SortOrder) {
    SortedRange(s, counter, order, 0, |s|)
  }

  /** The in-place sort by the comparator, as an insertion sort that swaps a pair whenever
      the comparator returns a positive number. It permutes the array; when every count is a
      whole number, the result is in order. */
  method SortByDays(a: array<Aircraft>, counter: DayCounter, order: SortOrder)
    modifies a
    ensures multiset(a[..]) == multiset(old(a[..]))
    ensures AllWhole(old(a[..]), counter) ==> SortedByDays(a[..], counter, order)
  {
    ghost var allWhole := AllWhole(a[..], counter);
    if a.Length == 0 {
      return;
    }
    for i := 1 to a.Length
      invariant multiset(a[..]) == multiset(old(a[..]))
      invariant allWhole ==> SortedRange(a[..], counter, order, 0, i)
    {
      AllWholePermutation(a[..], old(a[..]), counter);
      InsertAt(a, counter, order, i, allWhole);
    }
  }

  /** One step of the insertion sort: moves `a[i]` down past every element the comparator
      puts after it. */
  method InsertAt(a: array<Aircraft>, counter: DayCounter, order: SortOrder, i: int, ghost whole: bool)
    requires 0 < i < a.Length
    requires whole ==> AllWhole(a[..], counter) && SortedRange(a[..], counter, order, 0, i)
    modifies a
    ensures multiset(a[..]) == multiset(old(a[..]))
    ensures whole ==> SortedRange(a[..], counter, order, 0, i + 1)
  {
    var j := i;
    while j > 0 && OutOfOrder(order, counter(a[j - 1].nextCheck), counter(a[j].nextCheck))
      invariant 0 <= j <= i
      invariant multiset(a[..]) == multiset(old(a[..]))
      invariant whole ==> Inserting(a[..], counter, order, j, i)
      decreases j
    {
      ghost var before := a[..];
      a[j - 1], a[j] := a[j], a[j - 1];
      assert a[..] == before[j - 1 := before[j]][j := before[j - 1]];
      if whole {
        InsertingStep(before, counter, order, j, i);
      }
      j := j - 1;
    }
    if whole {
      InsertingDone(a[..], counter, order, j, i);
    }
  }

  /** The state of an insertion step: the element being moved sits at `j`, both `s[..j]` and
      `s[j..i + 1]` are in order, and everything before `j` comes before everything after it. */
  predicate Inserting(s: seq<Aircraft>, counter: DayCounter, order: SortOrder, j: int, i: int)
    requires 0 <= j <= i < |s|
  {
    AllWhole(s, counter)
    && SortedRange(s, counter, order, 0, j)
    && SortedRange(s, counter, order, j, i + 1)
    && forall p, q :: 0 <= p < j < q <= i ==> InOrder(order, counter(s[p].nextCheck), counter(s[q].nextCheck))
  }

  /** Swapping the moved element with an out-of-order predecessor keeps the state. */
  lemma InsertingStep(s: seq<Aircraft>, counter: DayCounter, order: SortOrder, j: int, i: int)
    requires 0 < j <= i < |s|
    requires Inserting(s, counter, order, j, i)
    requires OutOfOrder(order, counter(s[j - 1].nextCheck), counter(s[j].nextCheck))
    ensures Inserting(s[j - 1 := s[j]][j := s[j - 1]], counter, order, j - 1, i)
  {
  }

  /** When the moved element reaches the front or an in-order predecessor, `s[..i + 1]` is in
      order. */
  lemma InsertingDone(s: seq<Aircraft>, counter: DayCounter, order: SortOrder, j: int, i: int)
    requires 0 <= j <= i < |s|
    requires Inserting(s, counter, order, j, i)
    requires j > 0 ==> !OutOfOrder(order, counter(s[j - 1].nextCheck), counter(s[j].nextCheck))
    ensures SortedRange(s, counter, order, 0, i + 1)
  {
  }

  /** `filteredAndSortedAircraft`: the status filter, the search filter, then the sort of a
      fresh array. */
  method FilteredAndSortedAircraft(
    aircraftData: seq<Aircraft>, maintenanceFilter: Option<MaintenanceStatus>, searchTerm: string,
    sortOrder: SortOrder, dayNumber: DayNumber, today: int)
    returns (view: seq<Aircraft>)
    ensures multiset(view) == multiset(Selected(aircraftData, maintenanceFilter, searchTerm, dayNumber, today))
    ensures AllWhole(view, MidnightDayCounter(dayNumber, today)) ==>
      SortedByDays(view, MidnightDayCounter(dayNumber, today), sortOrder)
  {
    var filteredData := StatusFiltered(aircraftData, maintenanceFilter, dayNumber, today);
    var matching := SearchFiltered(filteredData, searchTerm);
    var sorted := new Aircraft[|matching|](k requires 0 <= k < |matching| => matching[k]);
    assert sorted[..] == matching;
    SortByDays(sorted, MidnightDayCounter(dayNumber, today), sortOrder);
    view := sorted[..];
    AllWholePermutation(view, matching, MidnightDayCounter(dayNumber, today));
  }

  /** Whether every count is whole depends only on which aircraft there are. */
  lemma AllWholePermutation(s: seq<Aircraft>, t: seq<Aircraft>, counter: DayCounter)
    requires multiset(s) == multiset(t)
    ensures AllWhole(s, counter) <==> AllWhole(t, counter)
  {
    forall k | 0 <= k < |s|
      ensures s[k] in multiset(t)
    {
      assert s[k] in multiset(s);
    }
    forall k | 0 <= k < |t|
      ensures t[k] in multiset(s)
    {
      assert t[k] in multiset(t);
    }
  }

  // ---------------------------------------------------------------------------------------
  // The filter badge

  /** The badge class of the active status filter. */
  function FilterBadgeClass(s: MaintenanceStatus): (r: string)
    ensures r == "status-error" <==> s == Overdue
    ensures r == "status-warning" <==> s == Urgent
    ensures r == "status-info" <==> s == DueSoon
    ensures r == "status-success" <==> s == Good
  {
    if Name(s) == "overdue" then "status-error"
    else if Name(s) == "urgent" then "status-warning"
    else if Name(s) == "due-soon" then "status-info"
    else "status-success"
  }

  /** The badge of the page's status of a day count has the tone of the icon the aircraft
      card shows for that count. */
  lemma BadgeToneMatchesCard(daysUntil: Days)
    ensures FilterBadgeClass(StatusOfDays(daysUntil))[|"status-"|..]
         == IconColorClass(CardStatus(daysUntil).variant)[|"text-"|..]
  {
    BandsPartition(daysUntil);
  }

  /** After a click on an overview tile, the details tab's filter badge has the class of the
      tile's own badge. */
  lemma TileBadgeMatchesFilterBadge(stats: Stats)
    ensures forall k :: 0 <= k < |StatCards(stats)| ==>
      FilterBadgeClass(StatCards(stats)[k].target) == StatusBadgeClass(StatCards(stats)[k].variant)
  {
  }

  // ---------------------------------------------------------------------------------------
  // The page state

  /** What the main area shows. */
  datatype Panel = Welcome | FleetOverview | AircraftDetails | PredictiveInsightsPanel | NoPanel

  /** The welcome screen with the uploader while there is no data, else the active tab's
      panel; a tab id other than the three the tab bar offers shows nothing. */
  function PanelFor(dataCount: nat, activeTab: string): (r: Panel)
    ensures r == Welcome <==> dataCount == 0
    ensures r == FleetOverview <==> dataCount > 0 && activeTab == "overview"
    ensures r == AircraftDetails <==> dataCount > 0 && activeTab == "aircraft"
    ensures r == PredictiveInsightsPanel <==> dataCount > 0 && activeTab == "insights"
  {
    if dataCount == 0 then Welcome
    else if activeTab == "overview" then FleetOverview
    else if activeTab == "aircraft" then AircraftDetails
    else if activeTab == "insights" then PredictiveInsightsPanel
    else NoPanel
  }

  /** The dashboard page's state and its event handlers. */
  class Dashboard {
    var aircraftData: seq<Aircraft>
    var searchTerm: string
    var sortOrder: SortOrder
    var activeTab: string
    var maintenanceFilter: Option<MaintenanceStatus>
    var showNotification: bool

    /** The initial state: no data, no search, ascending, the overview tab, no filter. */
    constructor()
      ensures aircraftData == [] && searchTerm == "" && sortOrder == Asc
      ensures activeTab == "overview" && maintenanceFilter == None && !showNotification
    {
      aircraftData := [];
      searchTerm := "";
      sortOrder := Asc;
      activeTab := "overview";
      maintenanceFilter := None;
      showNotification := false;
    }

    /** The panel the page renders. */
    function CurrentPanel(): (r: Panel)
      reads this
      ensures r == Welcome <==> aircraftData == []
      ensures aircraftData != [] && activeTab == "overview" ==> r == FleetOverview
      ensures aircraftData != [] && activeTab == "aircraft" ==> r == AircraftDetails
      ensures aircraftData != [] && activeTab == "insights" ==> r == PredictiveInsightsPanel
      ensures aircraftData != [] && activeTab !in ["overview", "aircraft", "insights"] ==> r == NoPanel
    {
      PanelFor(|aircraftData|, activeTab)
    }

    /** `handleDataLoad`: the loaded records replace the data. */
    method HandleDataLoad(data: seq<Aircraft>)
      modifies this
      ensures aircraftData == data
      ensures searchTerm == old(searchTerm) && sortOrder == old(sortOrder) && activeTab == old(activeTab)
      ensures maintenanceFilter == old(maintenanceFilter) && showNotification == old(showNotification)
    {
      aircraftData := data;
    }

    /** The uploader's success callback raises the notification flag. */
    method HandleUploadSuccess()
      modifies this
      ensures showNotification
      ensures aircraftData == old(aircraftData) && searchTerm == old(searchTerm) && sortOrder == old(sortOrder)
      ensures activeTab == old(activeTab) && maintenanceFilter == old(maintenanceFilter)
    {
      showNotification := true;
    }

    /** `handleStatCardClick`: opens the details tab filtered to the card's status. */
    method HandleStatCardClick(status: MaintenanceStatus)
      modifies this
      ensures activeTab == "aircraft" && maintenanceFilter == Some(status)
      ensures aircraftData == old(aircraftData) && searchTerm == old(searchTerm) && sortOrder == old(sortOrder)
      ensures showNotification == old(showNotification)
      ensures |aircraftData| > 0 ==> CurrentPanel() == AircraftDetails
    {
      activeTab := "aircraft";
      maintenanceFilter := Some(status);
    }

    /** `handleTabChange`: switches to the selected tab and drops the status filter. */
    method HandleTabChange(tabId: string)
      modifies this
      ensures activeTab == tabId && maintenanceFilter == None
      ensures aircraftData == old(aircraftData) && searchTerm == old(searchTerm) && sortOrder == old(sortOrder)
      ensures showNotification == old(showNotification)
    {
      activeTab := tabId;
      maintenanceFilter := None;
    }

    /** The search field's input handler. */
    method SetSearchTerm(term: string)
      modifies this
      ensures searchTerm == term
      ensures aircraftData == old(aircraftData) && sortOrder == old(sortOrder) && activeTab == old(activeTab)
      ensures maintenanceFilter == old(maintenanceFilter) && showNotification == old(showNotification)
    {
      searchTerm := term;
    }

    /** The sort selector's change handler. */
    method SetSortOrder(order: SortOrder)
      modifies this
      ensures sortOrder == order
      ensures aircraftData == old(aircraftData) && searchTerm == old(searchTerm) && activeTab == old(activeTab)
      ensures maintenanceFilter == old(maintenanceFilter) && showNotification == old(showNotification)
    {
      sortOrder := order;
    }

    /** The badge's "Clear Filter" button. */
    method ClearFilter()
      modifies this
      ensures maintenanceFilter == None
      ensures aircraftData == old(aircraftData) && searchTerm == old(searchTerm) && sortOrder == old(sortOrder)
      ensures activeTab == old(activeTab) && showNotification == old(showNotification)
    {
      maintenanceFilter := None;
    }

    /** The aircraft the details tab lists, for today's day number. */
    method VisibleAircraft(dayNumber: DayNumber, today: int) returns (view: seq<Aircraft>)
      ensures multiset(view) == multiset(Selected(aircraftData, maintenanceFilter, searchTerm, dayNumber, today))
      ensures AllWhole(view, MidnightDayCounter(dayNumber, today)) ==>
        SortedByDays(view, MidnightDayCounter(dayNumber, today), sortOrder)
    {
      view := FilteredAndSortedAircraft(aircraftData, maintenanceFilter, searchTerm, sortOrder, dayNumber, today);
    }
  }
}
