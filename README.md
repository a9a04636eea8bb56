# Weather & health safety dashboard: the hazard-assessment core in Dafny

The dashboard reads the current weather for the user's position and the COVID-19
snapshot for the user's country. It turns each into an assessment, a list of
hazards with a list of precautions, and shows the merged assessments in an
"Alerts & Precautions" panel. A separate search box looks up Indian places.
This project models that pipeline and proves what it promises:

- `WeatherDetails`: `assessWeatherHazards` as an imperative method that runs the
  source's six guarded blocks one after the other. It is proved equal to a rule
  table (`Fires`, `FiredRules`, `Expected`). The rule table is then proved to
  give the listed properties: the iff per hazard and per precaution, no
  duplicates, rule order, exclusive heat branches and worked examples.
  `WeatherPanel.FetchAll` is the fetch step: it stores the reading and the
  resolved place, forwards the place and the weather assessment to `App`, and
  decides whether a notification is due.
- `HealthInfo`: `covidGuidance`, the defaulted per-million rate with JavaScript's
  `Math.round`, and the inclusive threshold of 50. It also proves a form of the
  threshold in exact arithmetic and the examples at the boundary.
  `HealthPanel.FetchCovid` is the fetch step, with its `cancelled` guard.
- `AlertsPrecautions`: the concatenate, flatten and deduplicate merge. It keeps
  first-occurrence order and shows the "no active alerts" branch exactly when no
  hazard is left.
- `StateSearch`: the result label and card header (`filter(Boolean).join(', ')`),
  JavaScript's `trim`, the two-character guard of `search`, and the India
  filter. `SearchBox` models `search` and the selection handler as state updates.
- `App`: `headerTitle`, the per-source alert state that the callbacks overwrite,
  and the wrapping of the latest alerts into lists for the panel.
- Three shared modules: `JsValues` (absent properties, truthiness, template text,
  error text, request outcomes), `Types` (the assessment, place and position
  records and the source tag) and `InsertionSet` (a JavaScript `Set` of strings
  as the sequence `Array.from` returns, with its deduplication lemmas).

Modelling conventions:

- An absent (`undefined`) property is `None`.
- Readings are exact reals. `Math.round(x)` is `floor(x + 1/2)`.
- A request's outcome is a parameter: the parsed body, a response that is not ok,
  or a thrown error with its message.
- The `cancelled` flag of an effect is a boolean parameter. It says whether the
  cleanup ran before the response was processed.
- The callbacks `App` passes to the panels are calls to `App.Dashboard` methods.

## Model

| member | source | states |
|---|---|---|
| JsValues.OrElse | src/App.jsx:30 | a string defaults to the fallback: the string when it is present and non-empty, the fallback otherwise |
| JsValues.Truthy | src/App.jsx:30 | a string property is truthy iff it is present and non-empty |
| JsValues.TemplateText | src/App.jsx:30 | a template literal prints a present string as is and an absent one as "undefined" |
| JsValues.ErrorText | src/components/WeatherDetails.jsx:119 | the error text is never empty: the message when it has one, "Something went wrong" when it is empty |
| InsertionSet.Add | src/components/WeatherDetails.jsx:21 | `set.add(x)` makes `x` a member, adds nothing else, leaves a set that holds `x` unchanged and never creates a duplicate |
| InsertionSet.FromArray | src/components/WeatherDetails.jsx:59 | `Array.from(new Set(s))` has no duplicates, the same members as `s`, and is no longer than `s` |
| InsertionSet.FromArraySnoc | src/components/WeatherDetails.jsx:59 | deduplicating one more element is one `add` |
| InsertionSet.FromArrayOfNoDup | src/components/WeatherDetails.jsx:59 | a list without duplicates passes through a `Set` unchanged |
| InsertionSet.FromArrayIdempotent | src/components/AlertsPrecautions.jsx:7 | deduplicating twice is deduplicating once |
| InsertionSet.AddAll | src/components/WeatherDetails.jsx:21-56 | a block's run of `precautions.add` calls only appends, adds exactly the given elements, and never creates a duplicate |
| InsertionSet.FromArrayAppendAll | src/components/WeatherDetails.jsx:21-23 | adding elements one by one to a `Set` gives the deduplication of the whole concatenation |
| InsertionSet.AddAllCovered | src/components/WeatherDetails.jsx:21-23 | adding only elements already present changes nothing |
| InsertionSet.FromArrayAppendCovered | src/components/AlertsPrecautions.jsx:7 | appending elements that are all present already leaves the deduplication unchanged |
| InsertionSet.FromArrayDoubled | src/components/AlertsPrecautions.jsx:7 | a list repeated twice deduplicates like the list once |
| InsertionSet.FromArrayPrefix | src/components/AlertsPrecautions.jsx:7 | adding more elements never reorders or drops what the set already holds |
| InsertionSet.FromArrayFirstOccurrenceOrder | src/components/AlertsPrecautions.jsx:7 | the deduplicated elements appear in the order of their first occurrence |
| AlertsPrecautions.FlatItems | src/components/AlertsPrecautions.jsx:7 | `flatMap` over `a.hazards`, a missing list counting as empty, holds exactly the items of some assessment's list |
| AlertsPrecautions.Unique | src/components/AlertsPrecautions.jsx:2-8 | the merged list has no duplicates and holds exactly the items of some weather or some health assessment |
| AlertsPrecautions.Render | src/components/AlertsPrecautions.jsx:14-15 | "no active alerts" is shown iff no assessment has a hazard; otherwise the non-empty merged hazards and the merged precautions |
| AlertsPrecautions.FlatItemsEmpty | src/components/AlertsPrecautions.jsx:7 | nothing is flattened iff every assessment's list is missing or empty |
| AlertsPrecautions.UniqueSingle | src/components/AlertsPrecautions.jsx:7-8 | merging one assessment alone deduplicates its own list |
| AlertsPrecautions.FlatItemsAppend | src/components/AlertsPrecautions.jsx:2-7 | the weather items come before the health items in the flattened list |
| AlertsPrecautions.WeatherItemsLead | src/components/AlertsPrecautions.jsx:2-7 | the merged list starts with what the weather assessments alone give |
| AlertsPrecautions.MissingListContributesNothing | src/components/AlertsPrecautions.jsx:7-8 | an assessment whose list is missing or empty contributes nothing to that list, wherever it stands |
| AlertsPrecautions.PrecautionsIgnoreHazards | src/components/AlertsPrecautions.jsx:8 | the precautions merge depends only on the precautions, not on the hazards |
| AlertsPrecautions.SelfMerge | src/components/AlertsPrecautions.jsx:7-8 | merging an assessment with itself gives what merging it alone gives |
| AlertsPrecautions.Remerge | src/components/AlertsPrecautions.jsx:7-8 | merging an already merged list again changes nothing |
| AlertsPrecautions.MergeExample | src/components/AlertsPrecautions.jsx:7 | ['A'] merged with ['A', 'B'] gives ['A', 'B'] |
| AlertsPrecautions.PrecautionsHiddenWithoutHazards | src/components/AlertsPrecautions.jsx:14-15 | with no hazard, "no active alerts" is shown even when precautions exist |
| App.HeaderTitle | src/App.jsx:28-31 | the default title without a place; otherwise the name (or 'Your area'), then `, admin1` exactly when the region is truthy, then the separator and the country |
| App.ResolvedTitleIsNotDefault | src/App.jsx:28-31 | a resolved place never yields the default title |
| App.AsList | src/App.jsx:49 | `alert ? [alert] : []` holds at most one element, the alert when there is one |
| App.ViewOfLatest | src/App.jsx:49 | with the latest alert of each source, "no active alerts" is shown iff each present alert has no hazard |
| App.Dashboard.constructor | src/App.jsx:18-21 | no position, place or alert at start |
| App.Dashboard.OnLocation | src/App.jsx:23 | the new position replaces the old one and nothing else changes |
| App.Dashboard.OnPlaceResolved | src/App.jsx:24 | the resolved place, possibly none, replaces the old one and nothing else changes |
| App.Dashboard.OnWeatherHazards | src/App.jsx:25 | the latest weather assessment replaces the previous one; nothing accumulates |
| App.Dashboard.OnHealthHazards | src/App.jsx:26 | the latest health assessment replaces the previous one; nothing accumulates |
| App.Dashboard.Title | src/App.jsx:28-31 | the title is the default one iff no place is resolved |
| App.Dashboard.AlertsView | src/App.jsx:49 | the panel shows "no active alerts" iff each source's latest alert is absent or has no hazard |
| WeatherDetails.FiredRules | src/components/WeatherDetails.jsx:18-57 | a rule is among the fired rules iff there is a reading and its condition holds |
| WeatherDetails.Fires | src/components/WeatherDetails.jsx:19-54 | the rule table; a rule fires only when a field it tests is present, since a comparison with `undefined` is false |
| WeatherDetails.Expected | src/components/WeatherDetails.jsx:7-60 | the assessment the rule table calls for: empty without a reading, one hazard per fired rule, precautions without duplicates |
| WeatherDetails.Labels | src/components/WeatherDetails.jsx:20 | one hazard label per fired rule, in the same positions |
| WeatherDetails.AllPrecautions | src/components/WeatherDetails.jsx:21-56 | a precaution is gathered iff some fired rule calls for it |
| WeatherDetails.FireStep | src/components/WeatherDetails.jsx:19-57 | a rule that fires appends its label and adds its precautions as the rule table says |
| WeatherDetails.LabelsSnoc | src/components/WeatherDetails.jsx:20 | one more fired rule appends its label |
| WeatherDetails.AllPrecautionsSnoc | src/components/WeatherDetails.jsx:21-23 | one more fired rule appends its precautions |
| WeatherDetails.StepTracks | src/components/WeatherDetails.jsx:19-57 | each guarded block keeps the partial result equal to the rule table's |
| WeatherDetails.Step | src/components/WeatherDetails.jsx:19-57 | one guarded block only appends to both lists, and adds exactly its label and precautions when its rule fires |
| WeatherDetails.Steps | src/components/WeatherDetails.jsx:9-57 | the six blocks run in source order from empty lists yield the fired rules' labels and deduplicated precautions |
| WeatherDetails.Check | src/components/WeatherDetails.jsx:19-57 | one block: when the source's test on the reading holds, the label is pushed and the precautions added, in order |
| WeatherDetails.AssessWeatherHazards | src/components/WeatherDetails.jsx:7-60 | the result is the rule table's assessment; no reading gives empty lists |
| WeatherDetails.LabelsOfFiredRules | src/components/WeatherDetails.jsx:59 | the final `Set` pass over the hazards changes nothing, as no label repeats |
| WeatherDetails.AppendWhen | src/components/WeatherDetails.jsx:18-57 | a later block can only append a later rule |
| WeatherDetails.FiredRulesInOrder | src/components/WeatherDetails.jsx:18-57 | the hazards come in rule order: heat, rain, storm, freezing, humidity |
| WeatherDetails.LabelInjective | src/components/WeatherDetails.jsx:20-55 | distinct rules report distinct labels |
| WeatherDetails.LabelsNoDup | src/components/WeatherDetails.jsx:9-59 | rules in evaluation order give no repeated label |
| WeatherDetails.HazardIff | src/components/WeatherDetails.jsx:19-57 | each hazard is reported iff there is a reading and its rule fires |
| WeatherDetails.OnlyRuleLabels | src/components/WeatherDetails.jsx:9-59 | every reported hazard is the label of a rule that fired |
| WeatherDetails.PrecautionIff | src/components/WeatherDetails.jsx:10-59 | a precaution is listed iff some fired rule adds it |
| WeatherDetails.ReportIsDistinct | src/components/WeatherDetails.jsx:59 | neither list has a duplicate, and at most five hazards are reported |
| WeatherDetails.HeatIsExclusive | src/components/WeatherDetails.jsx:19-28 | "Extreme heat risk" and "High heat" are never reported together |
| WeatherDetails.NoTemperatureNoHeatOrCold | src/components/WeatherDetails.jsx:12-57 | without a temperature none of the four temperature hazards is reported |
| WeatherDetails.EmptyReadingIsQuiet | src/components/WeatherDetails.jsx:12-57 | a reading with every field absent raises nothing and no error |
| WeatherDetails.HazardsNonEmptyIff | src/components/WeatherDetails.jsx:9-59 | some hazard is reported iff some rule fires |
| WeatherDetails.PrecautionsDistinct | src/components/WeatherDetails.jsx:21-56 | no block adds the same precaution twice |
| WeatherDetails.ExtremeHeatExample | src/components/WeatherDetails.jsx:19-23 | 39 degrees, dry and calm gives "Extreme heat risk" and its three precautions only |
| WeatherDetails.ExtremeHeatPrecautions | src/components/WeatherDetails.jsx:21-23 | the extreme-heat block alone adds its three precautions in order |
| WeatherDetails.HumidHeatExample | src/components/WeatherDetails.jsx:24-57 | 35 degrees at 80 % humidity gives "High heat" then "Heat + high humidity" |
| WeatherDetails.RainAndHumidHeatExample | src/components/WeatherDetails.jsx:31-57 | 31 degrees, 75 %, 12 mm and code 65 gives "Heavy rain" then "Heat + high humidity" with their four precautions |
| WeatherDetails.RainThenHumidHeatPrecautions | src/components/WeatherDetails.jsx:33-56 | heavy rain then humid heat add four precautions, in that order |
| WeatherDetails.ForwardedReportSurvivesMerge | src/components/WeatherDetails.jsx:106-107 | the forwarded weather alert, merged alone, shows exactly its own hazards and precautions |
| WeatherDetails.BestMatch | src/components/WeatherDetails.jsx:97-103 | the first geocoding result when there is one, none otherwise |
| WeatherDetails.FailureMessage | src/components/WeatherDetails.jsx:90-91 | no message iff both responses are ok; otherwise "Failed to fetch weather" when the forecast failed, else "Failed to resolve place" when the geocoder failed, and the error text of a thrown error |
| WeatherDetails.WeatherPanel.constructor | src/components/WeatherDetails.jsx:63-66 | no place or reading, not loading, no error |
| WeatherDetails.WeatherPanel.FetchAll | src/components/WeatherDetails.jsx:79-126 | no position changes nothing; loading ends unless cancelled; a failure sets the error only if not cancelled; a success stores the reading and place, forwards the place and the weather assessment, and notifies iff a hazard is reported |
| HealthInfo.CovidGuidance | src/components/HealthInfo.jsx:5-27 | five symptoms, five prevention items and three medicines; "Stay home if unwell" is shared with the health alert |
| HealthInfo.NumberOr | src/components/HealthInfo.jsx:47-48 | `x` or the fallback: a missing or zero count gives the fallback |
| HealthInfo.TodayCases | src/components/HealthInfo.jsx:47 | `data.todayCases`, with a missing or zero count read as 0 |
| HealthInfo.Population | src/components/HealthInfo.jsx:48 | `data.population`, with a missing or zero population read as 1; never zero, so the rate is always defined |
| HealthInfo.Round | src/components/HealthInfo.jsx:49 | `Math.round` gives the integer within half of `x`, halves rounded up |
| HealthInfo.PerMillion | src/components/HealthInfo.jsx:49 | the rate is the integer within half of the exact per-million rate; no cases give 0 |
| HealthInfo.HealthAlert | src/components/HealthInfo.jsx:50-59 | the fixed assessment is emitted iff the rate is at least 50; nothing is emitted below it |
| HealthInfo.AlertIffCrossMultiplied | src/components/HealthInfo.jsx:47-50 | with a positive population an alert is raised iff `2 000 000 * cases >= 99 * population` |
| HealthInfo.CrossMultiply | src/components/HealthInfo.jsx:49-50 | a rate reaches 49.5 iff the cross-multiplied counts do |
| HealthInfo.RoundReachesThreshold | src/components/HealthInfo.jsx:49-50 | the rounded rate reaches 50 iff the exact rate reaches 49.5 |
| HealthInfo.ScaledQuotient | src/components/HealthInfo.jsx:49 | the exact rate times the population is a million times the cases |
| HealthInfo.NoCasesNoAlert | src/components/HealthInfo.jsx:47-50 | no or zero new cases never raise an alert |
| HealthInfo.AtThresholdExample | src/components/HealthInfo.jsx:47-50 | 500 cases in ten million give 50 per million and an alert |
| HealthInfo.BelowThresholdExample | src/components/HealthInfo.jsx:47-50 | 490 cases in ten million give 49 per million and no alert |
| HealthInfo.RoundsHalfUpExample | src/components/HealthInfo.jsx:49-50 | 495 cases in ten million round up from 49.5 to 50 and alert |
| HealthInfo.MissingPopulationExample | src/components/HealthInfo.jsx:48-49 | a missing or zero population counts as one person |
| HealthInfo.HealthPanel.constructor | src/components/HealthInfo.jsx:30-32 | no snapshot, not loading, no error |
| HealthInfo.HealthPanel.FetchCovid | src/components/HealthInfo.jsx:34-69 | no country code: nothing happens; otherwise loading ends unless cancelled, a failure sets the error unless cancelled, and an uncancelled success stores the snapshot and replaces the health alert only when the rate reaches 50 |
| StateSearch.Truthies | src/components/StateSearch.jsx:7 | `filter(Boolean)` keeps exactly the present, non-empty parts |
| StateSearch.Join | src/components/StateSearch.jsx:7 | `join` starts with the first part and ends with the last |
| StateSearch.JoinSnoc | src/components/StateSearch.jsx:7 | joining one more part appends the separator and the part |
| StateSearch.Label | src/components/StateSearch.jsx:5-8 | the label is empty iff no part is truthy, starts with a truthy name and ends with a truthy country |
| StateSearch.TruthiesOfParts | src/components/StateSearch.jsx:6-7 | the truthy parts of a place are its truthy name, region and country, in that order |
| StateSearch.TruthiesCons | src/components/StateSearch.jsx:7 | filtering keeps the first part iff it is truthy, then filters the rest |
| StateSearch.Header | src/components/StateSearch.jsx:56-60 | the header is empty without a place and the result label otherwise |
| StateSearch.JoinTwo | src/components/StateSearch.jsx:7 | two parts join around one separator |
| StateSearch.JoinThree | src/components/StateSearch.jsx:7 | three parts join around two separators |
| StateSearch.FullLabel | src/components/StateSearch.jsx:6-7 | a place with all three parts lists as `name, region, country` |
| StateSearch.LabelSkipsMissingRegion | src/components/StateSearch.jsx:6-7 | a missing region leaves no empty segment behind |
| StateSearch.TrimStart | src/components/StateSearch.jsx:118 | what is left does not start with white space and is no longer |
| StateSearch.TrimEnd | src/components/StateSearch.jsx:118 | what is left does not end with white space and is no longer |
| StateSearch.TrimStartIsSuffix | src/components/StateSearch.jsx:118 | trimming the start keeps a suffix |
| StateSearch.TrimEndIsPrefix | src/components/StateSearch.jsx:118 | trimming the end keeps a prefix |
| StateSearch.TrimStartDropsSpaces | src/components/StateSearch.jsx:118 | only white space is dropped at the start |
| StateSearch.TrimEndDropsSpaces | src/components/StateSearch.jsx:118 | only white space is dropped at the end |
| StateSearch.Trim | src/components/StateSearch.jsx:118 | `trim()` is no longer than its input and neither of its ends is white space |
| StateSearch.TrimIsSlice | src/components/StateSearch.jsx:118 | `trim()` is the slice between the leading and the trailing white space, and only white space lies outside it |
| StateSearch.SliceOfSuffix | src/components/StateSearch.jsx:118 | a prefix of a suffix is a slice |
| StateSearch.TrailingOfSuffix | src/components/StateSearch.jsx:118 | white space at the end of a suffix is white space at the end of the whole |
| StateSearch.TrimKeepsInnerText | src/components/StateSearch.jsx:118 | a string without white space at either end is its own trim |
| StateSearch.TrimIdempotent | src/components/StateSearch.jsx:118 | trimming twice is trimming once |
| StateSearch.Blocked | src/components/StateSearch.jsx:118 | the guard holds iff the trimmed query is shorter than two characters: the test for an empty query adds nothing |
| StateSearch.PassedQueryIsLong | src/components/StateSearch.jsx:118 | a query that passes the guard has at least two characters as typed |
| StateSearch.GuardIgnoresPadding | src/components/StateSearch.jsx:118 | padding a query with white space never changes whether it is searched |
| StateSearch.RequestFor | src/components/StateSearch.jsx:125-131 | the request carries the trimmed query, country IN, count 10, English, JSON |
| StateSearch.InIndia | src/components/StateSearch.jsx:135 | a result is kept iff its country code is exactly IN |
| StateSearch.KeepIndian | src/components/StateSearch.jsx:135 | exactly the results whose country code is IN are kept |
| StateSearch.FilterIndia | src/components/StateSearch.jsx:135 | missing results become none; otherwise exactly the Indian results are kept |
| StateSearch.KeepIndianAppend | src/components/StateSearch.jsx:135 | filtering keeps the original order: it distributes over concatenation |
| StateSearch.KeepIndianIdempotent | src/components/StateSearch.jsx:135 | filtering a filtered list changes nothing |
| StateSearch.SelectionQuery | src/components/StateSearch.jsx:167 | the query written back is the name, followed by `, region` when the region is truthy and by nothing otherwise |
| StateSearch.SelectionQueryLeadsLabel | src/components/StateSearch.jsx:167 | for a named place, the query written back is the start of the label it was listed under |
| StateSearch.TitleExtendsSelectionQuery | src/App.jsx:30 | the page title of a named place is the selection query followed by the separator and the country |
| StateSearch.UnnamedSelectionExample | src/components/StateSearch.jsx:167 | a place without a name is written back as "undefined, region" |
| StateSearch.NoMatches | src/components/StateSearch.jsx:171 | "No matches" is shown iff not loading, no results, an untrimmed query of two characters or more, and no error |
| StateSearch.NoMatchesWithoutSearch | src/components/StateSearch.jsx:171 | " a" is never searched, yet "No matches" is shown for it, as the message checks the untrimmed length |
| StateSearch.SearchBox.constructor | src/components/StateSearch.jsx:111-115 | empty query and results, not loading, no error, nothing selected |
| StateSearch.SearchBox.Search | src/components/StateSearch.jsx:117-142 | a blocked query clears the results and sends nothing; otherwise the trimmed request is sent, loading ends, a failure sets the error, and a success keeps the Indian results |
| StateSearch.SearchBox.Select | src/components/StateSearch.jsx:167 | the place is selected, the results are cleared and the query becomes the selection text |

## Left out

- HTTP: URL building, `fetch`, the `ok` flags and JSON parsing. Each request's outcome is a parameter of the fetch method.
- Concurrency: `Promise.all`, the React effect lifecycle and the interleaving of async steps. `cancelled` is a single boolean that says whether cleanup ran before the response was processed.
- The 350 ms debounce timer of the search box, and the new search that writing the selection into the query schedules. Searches racing each other are not modelled.
- The Notification API: only the condition that triggers it, a non-empty hazard list, is modelled.
- src/components/LocationAccess.jsx is not part of this model: it is geolocation and storage plumbing.
- Display formatting (`toFixed`, `toLocaleString`, JSX rendering, icons, styling).
- The `WeatherCard` fetch of the search box: it is I/O around the header, which is modelled.
- IEEE-754 arithmetic: readings and the rate are exact reals, so JavaScript's rounding of `today / pop * 1e6` near 49.5 is not modelled. Wind speed is compared as delivered, in whatever unit the API uses.
- `null` fields: an absent field is `undefined` (`None`), for which every comparison is false. A `null` temperature would compare as 0 in JavaScript and satisfy `t <= 0`; that case is not modelled.
- String lengths in `trim` and the guard count characters, not UTF-16 code units.
- The display fields of the COVID-19 snapshot (`active`, `tests`) are carried but not interpreted.
- HealthInfo.CovidGuidance: its contract states the list sizes and the entry shared with the health alert, not each text (the texts are its body).
- WeatherDetails.WeatherPanel.FetchAll: a failed request and a failed JSON parse are one `Rejected` outcome, and whether a notification is shown or permission requested is reduced to the `notify` result.
- StateSearch.Label: its contract states emptiness and both ends; the exact text is proved for two shapes only (FullLabel, LabelSkipsMissingRegion).
