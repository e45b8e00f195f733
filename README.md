# Fleet maintenance dashboard — verified model of its logic layer

This project models the logic of the SkyLink Airlines predictive-maintenance dashboard in Dafny
and proves properties of each part. The dashboard is a React single-page app. It loads a list of
aircraft (tail number, model, last check, next check, flight hours) from a semicolon-separated
upload or a built-in sample. It then shows four views of that list:

- status tiles with counts;
- a filterable, searchable, sortable list of aircraft cards;
- rule-based "predictive insights";
- a maintenance-capacity gauge.

Dates enter the model only as day counts. `Status.Days` is a JavaScript number that is either a
whole number of days or `NaN` (a missing or invalid `nextCheck`). A JavaScript comparison with
`NaN` is false, so every threshold ladder sends `NaN` to its last branch, "good". Each component
turns a next-check cell into a day count through its own `DayCounter`. The page normalises both
dates to midnight: `Index.DaysUntilMaintenance` takes a day-number function for dates and today's
day number. The other components do not normalise. The model therefore never claims that two
components compute the same count. It claims only that they classify the same count the same way.

Modules (one per source file, plus shared ones):

- `Wrappers`: `Option` and `Result`.
- `Seqs`: `Array.prototype.filter` and its laws.
- `JsString`, the string built-ins the code relies on:
  - `trim`;
  - `split` and `join` on one character;
  - ASCII `toLowerCase` and `includes`;
  - `parseInt(s, 10)`;
  - the decimal rendering of an integer.
- `Status`: day counts, the four statuses and their reference day-count bands.
- `AircraftCard`, `MaintenanceOverview`, `PredictiveInsights`, `CsvUploader` and `Index`: one each
  for the component or page of the same name.

Where the code mutates state, the model does too:

- `MaintenanceOverview.CalculateMaintenanceStats` is a loop over four counters.
- `PredictiveInsights.GroupByModel` updates a map accumulator step by step.
- `PredictiveInsights.GeneratePredictiveInsights` pushes the insights one by one.
- `Index.SortByDays` sorts an array in place.
- `CsvUploader.Uploader` and `Index.Dashboard` are classes whose methods are the event handlers.

The loops and the in-place sort are proved against specification functions, and the lemmas
are proved about those functions. The two classes' handlers state their whole new state field by
field, against the state before the call.

Where the code's behaviour is surprising, the model follows the code:

- An unparseable date or hours value is not rejected. It becomes `NaN` and flows on: it is
  classified as "good", and it is not "high usage". With a `NaN` count present the comparator is inconsistent, so the
  sorted order is left unspecified; only the permutation is proved.
- The seasonal filter's test `month >= 5 || month <= 8` accepts every month. So the "winter"
  count is the number of aircraft with a valid next-check date (`SeasonalMonthIsAnyMonth`,
  `WinterIsDatedAircraft`).
- `split('\n')` leaves the carriage return of a CRLF file on every line but the last.
  `CrlfHeaderFails` proves the consequence: once a data line follows the header, the header's
  last name is `"flightHours\r"`, "flightHours" is missing, and the file is rejected.

## Model

| member | source | states |
|---|---|---|
| Index.DaysUntilMaintenance | src/pages/Index.tsx:21-28 | the count is whole exactly when the date is present and valid, and it is then the difference of the day numbers of the check and of today |
| Index.DaysUntilNextDay | src/pages/Index.tsx:21-28 | one day later every whole count is one smaller, and a `NaN` count stays `NaN` |
| Index.StatusOfDays | src/pages/Index.tsx:30-36 | the classifier's result is a status whose band holds the day count |
| Index.GetMaintenanceStatus | src/pages/Index.tsx:30-36 | an aircraft's status is the band of its midnight-normalised day count |
| Index.StatusIsTheBand | src/pages/Index.tsx:30-36 | the classifier returns a status if and only if that status's band holds the count, so it is total and returns exactly one status |
| Index.StatusBoundaries | src/pages/Index.tsx:32-35 | -1 is overdue, 0 and 30 are urgent, 31 and 90 are due soon, 91 is good |
| Index.CardAgreesWithPage | src/components/AircraftCard.tsx:33-40 | for the same day count, the card's status string is the name of the page's status |
| Index.OverviewAgreesWithPage | src/components/MaintenanceOverview.tsx:29-38 | for the page's day counter, each overview bucket counts exactly the aircraft the page classifies into that status |
| Index.SelectedExactly | src/pages/Index.tsx:62-73 | an aircraft that passes both filters occurs in the selection as often as in the data, and any other aircraft not at all |
| Index.SelectedSound | src/pages/Index.tsx:64-73 | every selected aircraft has the filtered status (when there is a filter), and its lower-cased tail number contains the lower-cased search term |
| Index.SelectedAll | src/pages/Index.tsx:62-72 | with no status filter and an empty search term the selection is the whole data, in order |
| Index.StatCardListsItsCount | src/pages/Index.tsx:51-54 | after a tile click with an empty search, the list holds as many aircraft as the overview tile counts for the page's day counter |
| Index.Compare | src/pages/Index.tsx:74-78 | the comparator is `NaN` exactly when a count is `NaN`; ascending it is positive exactly when the first count is larger, descending exactly when it is smaller |
| Index.SortByDays | src/pages/Index.tsx:74-78 | the sort permutes the array; when every count is whole, the result is non-decreasing (ascending) or non-increasing (descending) |
| Index.InsertAt | src/pages/Index.tsx:74-78 | one insertion step permutes the array and extends the sorted prefix by one element |
| Index.FilteredAndSortedAircraft | src/pages/Index.tsx:61-79 | the view is a permutation of exactly the aircraft that pass both filters, and it is sorted by day count in the chosen order when every count is whole |
| Index.AllWholePermutation | src/pages/Index.tsx:74-78 | whether every count is whole depends only on the multiset of aircraft |
| Index.FilterBadgeClass | src/pages/Index.tsx:210-218 | each status has its own badge class: error, warning, info, success |
| Index.BadgeToneMatchesCard | src/pages/Index.tsx:210-218 | for the same day count, the filter badge has the tone of the card's icon colour |
| Index.TileBadgeMatchesFilterBadge | src/components/MaintenanceOverview.tsx:76-81 | the filter badge that a tile click produces has the class of that tile's own badge |
| Index.PanelFor | src/pages/Index.tsx:110-244 | the welcome screen shows exactly when there is no data; otherwise the overview, details or insights panel shows exactly when its tab id is active |
| Index.Dashboard.constructor | src/pages/Index.tsx:39-45 | the initial state: no data, empty search, ascending, overview tab, no filter, no notification |
| Index.Dashboard.CurrentPanel | src/pages/Index.tsx:110-244 | the welcome screen shows exactly when there is no data; with data, the overview, details or insights panel shows for its tab id, and nothing for any other id |
| Index.Dashboard.HandleDataLoad | src/pages/Index.tsx:47-49 | the loaded list replaces the data and nothing else changes |
| Index.Dashboard.HandleUploadSuccess | src/pages/Index.tsx:125 | the notification flag is raised and nothing else changes |
| Index.Dashboard.HandleStatCardClick | src/pages/Index.tsx:51-54 | the tab becomes "aircraft" and the filter the clicked status, so with data the details panel shows; nothing else changes |
| Index.Dashboard.HandleTabChange | src/pages/Index.tsx:56-59 | the tab becomes the selected id and the filter is cleared; nothing else changes |
| Index.Dashboard.SetSearchTerm | src/pages/Index.tsx:194 | only the search term changes |
| Index.Dashboard.SetSortOrder | src/pages/Index.tsx:197 | only the sort order changes |
| Index.Dashboard.ClearFilter | src/pages/Index.tsx:225 | only the filter changes, to none |
| Index.Dashboard.VisibleAircraft | src/pages/Index.tsx:234 | the listed aircraft are a permutation of the selection of the current state, sorted when every count is whole |
| CsvUploader.ValidHeader | src/components/CSVUploader.tsx:24-25 | the header is valid when every expected name is among its columns |
| CsvUploader.Lines | src/components/CSVUploader.tsx:20 | the trimmed text splits into at least one line |
| CsvUploader.LinesOfTrimmed | src/components/CSVUploader.tsx:20 | a text that starts and ends with a non-whitespace character splits into its own line-feed pieces |
| CsvUploader.ParseCsv | src/components/CSVUploader.tsx:19-41 | `parseCSV` fails, with the header message, exactly when the first line of the trimmed text lacks an expected column name; otherwise it gives the records of the remaining lines |
| CsvUploader.ParseRecords | src/components/CSVUploader.tsx:31-40 | one record per data line, record k parsed from line k |
| CsvUploader.ParseLines | src/components/CSVUploader.tsx:19-41 | the parse fails exactly when the first line's columns lack an expected name, with the header message; on success there is one record per line after the first |
| CsvUploader.RecordColumns | src/components/CSVUploader.tsx:32-38 | a row's first four columns become the text fields and the fifth the parsed hours; further columns are ignored |
| CsvUploader.ShortRecord | src/components/CSVUploader.tsx:32-38 | in a row with fewer than five columns, the missing fields are undefined and the hours are `NaN` |
| CsvUploader.ParseLinesOf | src/components/CSVUploader.tsx:21-31 | the lines of a header and data rows parse to the records of the rows when the header is valid, and to the header error otherwise |
| CsvUploader.LinesOf | src/components/CSVUploader.tsx:20 | a header line and data lines joined by line feeds come back as those lines |
| CsvUploader.ParseLayout | src/components/CSVUploader.tsx:19-41 | a file laid out as a header and data rows fails exactly when an expected name is missing from the header, whatever the order and extra columns, and otherwise yields one record per row, in file order |
| CsvUploader.BlankInputFails | src/components/CSVUploader.tsx:20-29 | empty or whitespace-only text fails with the header message |
| CsvUploader.MissingNameFails | src/components/CSVUploader.tsx:24-29 | a header that lacks one expected name makes the whole file fail |
| CsvUploader.CrlfHeaderFails | src/components/CSVUploader.tsx:20-29 | a CRLF file whose header ends in "flightHours\r" is rejected |
| CsvUploader.CrlfHeaderCells | src/components/CSVUploader.tsx:24 | the names of the CRLF header are clean cells, and "flightHours" is not among them |
| CsvUploader.ExpectedHeaderCells | src/components/CSVUploader.tsx:24 | the five expected names are clean cells that start and end with a letter |
| CsvUploader.LayoutTrimmed | src/components/CSVUploader.tsx:20 | `trim` leaves a header line followed by lines alone when its ends are not whitespace |
| CsvUploader.SerializeTrimmed | src/components/CSVUploader.tsx:20 | `trim` leaves a written fleet alone |
| CsvUploader.ParseSerialize | src/components/CSVUploader.tsx:19-41 | round trip: the documented format written from records with clean fields parses back to exactly those records |
| CsvUploader.RowsReadBack | src/components/CSVUploader.tsx:31-40 | every written data line is one line and parses back to its record |
| CsvUploader.IntToStringChars | src/components/CSVUploader.tsx:38 | written hours contain only digits and a minus sign |
| CsvUploader.RecordLineShape | src/components/CSVUploader.tsx:240 | a written record has no line feed and ends in a digit |
| CsvUploader.RecordLineReadsBack | src/components/CSVUploader.tsx:32-38 | a written record parses back to the record |
| CsvUploader.SampleData | src/components/CSVUploader.tsx:62-148 | the sample holds twelve records |
| CsvUploader.SampleTailNumbersDistinct | src/components/CSVUploader.tsx:63-147 | the sample's tail numbers are pairwise distinct |
| CsvUploader.Uploader.constructor | src/components/CSVUploader.tsx:15-16 | not loading, no error, no callbacks yet |
| CsvUploader.Uploader.HandleFileUpload | src/components/CSVUploader.tsx:43-60 | without a file nothing changes; otherwise loading ends false; a read failure or a header error sets the message and makes no callback; success clears the error and calls data load with the parsed records and then upload success |
| CsvUploader.Uploader.LoadSampleData | src/components/CSVUploader.tsx:62-151 | the sample goes to data load, with no success signal, and nothing else changes |
| MaintenanceOverview.BandCountsPartition | src/components/MaintenanceOverview.tsx:29-40 | the four bucket counts add up to the fleet size |
| MaintenanceOverview.CalculateMaintenanceStats | src/components/MaintenanceOverview.tsx:22-41 | each counter is the number of aircraft in its band (< 0, 0..30, 31..90, > 90 or `NaN`), the total is the fleet size, and the four add up to it |
| MaintenanceOverview.StatCards | src/components/MaintenanceOverview.tsx:116-151 | four tiles with distinct target statuses, each showing its status's count and the total |
| MaintenanceOverview.StatCardLabel | src/components/MaintenanceOverview.tsx:82 | "ATTENTION" exactly when the count is positive, "NORMAL" exactly when it is zero |
| MaintenanceOverview.StatusBadgeClass | src/components/MaintenanceOverview.tsx:76-81 | each variant has its own tile-badge class |
| MaintenanceOverview.CriticalAlert | src/components/MaintenanceOverview.tsx:155-168 | the alert shows exactly when some aircraft is overdue, and its message starts with the overdue count |
| MaintenanceOverview.Availability | src/components/MaintenanceOverview.tsx:194 | none (`NaN`) for an empty fleet; otherwise 100·(good + dueSoon)/total rounded half up, between 0 and 100 for consistent stats |
| MaintenanceOverview.RoundedPercent | src/components/MaintenanceOverview.tsx:194 | the integer formula brackets the exact percentage the way `Math.round` does, and a share of the whole is at most 100 |
| MaintenanceOverview.ScheduledIsDueWithin90 | src/components/MaintenanceOverview.tsx:206 | urgent + due soon counts exactly the aircraft due within the next 90 days |
| MaintenanceOverview.ScheduledMaintenanceCounts | src/components/MaintenanceOverview.tsx:206 | the scheduled figure of the computed stats is the number due within 90 days |
| AircraftCard.CardStatus | src/components/AircraftCard.tsx:33-41 | the status, variant and icon triple is fixed by the band of the count: overdue/error/alert, urgent/warning/alert, due-soon/info/history, good/success/sys-enter-2 |
| AircraftCard.StatusText | src/components/AircraftCard.tsx:46-50 | "Due today" exactly for a count of zero |
| AircraftCard.StatusTextReadsBack | src/components/AircraftCard.tsx:46-50 | for a nonzero count, `parseInt` of the text gives the absolute number of days |
| AircraftCard.StatusTextSaysOverdue | src/components/AircraftCard.tsx:46-50 | the text ends in " days overdue" exactly when the count is negative |
| AircraftCard.StatusTextSaysRemaining | src/components/AircraftCard.tsx:46-50 | the text ends in " days remaining" exactly when the count is positive or `NaN` |
| AircraftCard.StatusTextOfNaN | src/components/AircraftCard.tsx:46-50 | a `NaN` count reads "NaN days remaining" |
| AircraftCard.UsageLevel | src/components/AircraftCard.tsx:131-135 | "High" above 4000 hours, "Medium" from 2001 to 4000, "Low" at most 2000 or `NaN` |
| AircraftCard.UsageColorFollowsLevel | src/components/AircraftCard.tsx:123-129 | the colour class follows the level: warning for High, info for Medium, success for Low |
| AircraftCard.IconColorClass | src/components/AircraftCard.tsx:52-59 | each variant has its own icon colour class |
| PredictiveInsights.DescriptionReadsBack | src/components/PredictiveInsights.tsx:28-66 | `parseInt` of an insight's description gives the count it reports |
| PredictiveInsights.SeverityConfig | src/components/PredictiveInsights.tsx:76-85 | warning and info have their own colour and icon; any other severity gets the muted default |
| PredictiveInsights.InsightIcons | src/components/PredictiveInsights.tsx:76-85 | the alert icon marks exactly the high-usage insight, the lightbulb the others |
| PredictiveInsights.DistinctModelsMembers | src/components/PredictiveInsights.tsx:35-38 | a key is in the group-by's key list exactly when some aircraft has that model |
| PredictiveInsights.DistinctModelsDistinct | src/components/PredictiveInsights.tsx:35-38 | the key list has no duplicates |
| PredictiveInsights.ModelCountPositive | src/components/PredictiveInsights.tsx:35-38 | a model's count is positive exactly when it is a key |
| PredictiveInsights.ModelCountsSum | src/components/PredictiveInsights.tsx:35-38 | the counts of all keys add up to the fleet size |
| PredictiveInsights.GroupByModel | src/components/PredictiveInsights.tsx:35-38 | the accumulator loop builds exactly the model-count map, and its keys in first-seen order |
| PredictiveInsights.ModelGroupsCount | src/components/PredictiveInsights.tsx:35-38 | the map's keys are the fleet's models, each value is that model's number of aircraft, and the values sum to the fleet size |
| PredictiveInsights.PredominantIndex | src/components/PredictiveInsights.tsx:41-43 | the chosen key has the largest count, and every key before it a smaller one |
| PredictiveInsights.SeasonalMonthIsAnyMonth | src/components/PredictiveInsights.tsx:56-59 | the seasonal test holds for a month exactly when the month is defined |
| PredictiveInsights.Winter | src/components/PredictiveInsights.tsx:56-59 | every "winter" aircraft has a valid next-check month |
| PredictiveInsights.WinterIsDatedAircraft | src/components/PredictiveInsights.tsx:56-59 | the "winter" list is exactly the aircraft with a valid next-check month |
| PredictiveInsights.FortyPercent | src/components/PredictiveInsights.tsx:61 | w > 0.4·n exactly when 5·w > 2·n |
| PredictiveInsights.GeneratePredictiveInsights | src/components/PredictiveInsights.tsx:13-72 | the pushes build the insight list of the three rules |
| PredictiveInsights.HighUsageRule | src/components/PredictiveInsights.tsx:22-31 | the high-usage insight appears exactly when some aircraft has more than 4000 hours; it lists exactly those aircraft in order, and its description reports their number |
| PredictiveInsights.FleetRule | src/components/PredictiveInsights.tsx:41-52 | the fleet insight appears exactly when some model has more than two aircraft; it reports a model of the fleet with its count, and no model has more |
| PredictiveInsights.SeasonalRule | src/components/PredictiveInsights.tsx:56-69 | the seasonal insight appears exactly when 5·winter > 2·fleet size, and it reports the winter count |
| PredictiveInsights.InsightsShape | src/components/PredictiveInsights.tsx:15-71 | no insights for an empty fleet; at most three, in the order high usage, fleet, seasonal |
| PredictiveInsights.CalculateMaintenanceCapacity | src/components/PredictiveInsights.tsx:87-100 | next30Days counts aircraft due in 0..30 days; capacity is 8; utilisation is 12.5 per aircraft, capped at 100, and lies in [0, 100] |
| PredictiveInsights.HighUtilizationThreshold | src/components/PredictiveInsights.tsx:132-138 | the high-utilisation warning shows exactly when at least 7 aircraft are due within 30 days |
| PredictiveInsights.Next30DaysIsUrgentCount | src/components/PredictiveInsights.tsx:89-94 | the capacity count equals the overview's urgent bucket for the same day counter |
| PredictiveInsights.DisplayedUtilization | src/components/PredictiveInsights.tsx:133 | the shown percentage is between 0 and 100 and within one half of the utilisation |
| JsString.Trim | src/components/CSVUploader.tsx:20 | the trimmed text neither starts nor ends with whitespace |
| JsString.Split | src/components/CSVUploader.tsx:20-21 | at least one piece, none containing the separator |
| JsString.SplitJoin | src/components/CSVUploader.tsx:20-21 | splitting a join of separator-free pieces gives the pieces back |
| JsString.ParseInt | src/components/CSVUploader.tsx:38 | `NaN` exactly when no digit follows the leading whitespace and optional sign; otherwise the magnitude is the value of the digit run, and the result is negative only after a minus sign |
| JsString.ParseIntOfIntToString | src/components/CSVUploader.tsx:38 | `parseInt` reads back the decimal rendering of any integer, whatever non-digit text follows it |
| JsString.ParseIntNoDigits | src/components/CSVUploader.tsx:38 | `parseInt` of a text that starts with neither whitespace, a sign nor a digit is `NaN` |
| Seqs.FilterMultiset | src/pages/Index.tsx:64-73 | a filter keeps every passing element as often as it occurs, and drops the rest |
| Seqs.FilterNonEmpty | src/components/PredictiveInsights.tsx:22-23 | a filter is non-empty exactly when some element passes |
| Status.BandsPartition | src/pages/Index.tsx:30-36 | every day count lies in exactly one band |
| Status.NameInjective | src/components/MaintenanceOverview.tsx:13 | distinct statuses have distinct string values |

## Left out

- Date handling (`new Date(text)`, `setHours`, `getTime`, `getMonth`, time zones). Dates become a day-number function, per-component day counters and a month function, all of which are parameters. The model does not reproduce the `Math.ceil` of millisecond differences. It therefore does not capture the count one too high across a daylight-saving change, nor the fractional counts of the components that do not normalise to midnight.
- The comparator reads the clock again on every call. The model uses one day number for the whole sort.
- Index.SortByDays: `Array.prototype.sort` is modelled as an insertion sort that swaps on a positive comparator result. Order is proved only when every day count is whole. Sortedness with `NaN` counts present is not defined by the engine and is not claimed.
- Floating point. Availability and the displayed utilisation are exact rational roundings. The 0.4 factor is compared exactly, which matches doubles for fleets of realistic size.
- Decimal rendering covers JavaScript's plain integer format only. Exponent notation for magnitudes of 1e21 and more is not modelled.
- `toLowerCase` maps ASCII letters only.
- JsString.ParseInt: reads the digit run exactly. JavaScript's `parseInt` returns a double, so flight hours with more than 15 or 16 digits (above 2^53) lose precision there; the model does not capture that rounding.
- PredictiveInsights.PredominantIndex: `Object.entries` is taken to list keys in insertion order. JavaScript lists integer-like keys such as "747" first, in numeric order, so with tied counts the reported model may differ. The model also treats every model, including "__proto__"-like keys, as an ordinary own property.
- The filter badge's label (`replace("-", " ")`) is not modelled. Its class is.
- The async file read, the intermediate "loading" render and React re-rendering. `handleFileUpload` is one synchronous transition over the read's outcome. A callback that throws is not modelled.
- CsvUploader.LoadSampleData: what the sample contains is fixed data. No round trip through the written format is proved for it.
- Presentation: JSX and CSS beyond the enumerated class mappings, the Leaflet map and its pins, the notification chat widget, the calendar component, the tab bar's own events, date-fns `format`, `toLocaleString`, the fixed figures ("99.2%", "$2.4M") and the static cards.
