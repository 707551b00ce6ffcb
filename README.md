# CloudRoutes map: a Dafny model of route drawing, map filters and live buses

CloudRoutes Map is the web map of the CloudRoutes trip planner. Given a planned route (a list of
steps: walk, board, travel, transfer, arrive), it derives the stop markers, the line labels and
the polylines drawn on the live map, and the same elements again in the route-details modal. Next
to the route it shows three layers: bus stops, transit lines and live bus positions. A filter form
controls those layers. This project models that core in Dafny and proves what it promises.

- `wrappers.dfy`, `seqs.dfy`: `Option`, and JavaScript's `filter` as an order-preserving selection
  with membership and subsequence lemmas.
- `route_step.dfy`: the route step record, JavaScript truthiness of optional strings, and the
  coordinate list of a route.
- `route_stops.dfy`: `getAllStopsFromRoute` of `src/App.tsx`, with two passes:
  - a specification: pass one as a fold (`Classify`), and pass two as a fold (`Pass2`) over one
    function per branch, carrying the provenance of every stop;
  - an imperative method with loop invariants, proved equal to that specification;
  - lemmas for order, name freshness, the board stop, the walk stop and the interpolation index.
- `route_overlay.dfy`: the live-map overlay of `src/App.tsx`: line labels, polyline styling and the
  viewport fit.
- `route_review.dfy`: the route-details modal of `src/components/RouteDisplay.tsx`:
  - `getAllStops`, proved to be pass two without precedence and without the walk branch;
  - `getAllCoordinates`, the step visual, the step colour, the collapsible stop list (a class) and
    the map centre.
- `filter_helpers.dfy`: the conversions of `src/helpers.ts` between saved filters and form options.
- `filter_form.dfy`: the `useFilters` hook as a class, with the rules of the line multi-select.
- `stop_markers.dfy`, `line_markers.dfy`, `device_markers.dfy`: the three map layers, which are
  the stops, the lines, and the live bus positions with their merge and device filter.

Three behaviours of the stop derivation are easy to misread, and the model follows the code in
each of them:

- Only the transfer, intermediate and arrive pushes check the processed names. The walk and board
  pushes do not. So a board stop can repeat the name of any earlier stop: the walk stop
  (`RouteStops.BoardRepeatsWalkName`), an earlier transfer (`RouteStops.BoardRepeatsTransferName`)
  or an earlier intermediate stop. What does hold is proved in `RouteStops.DeriveStopsFreshNames`.
- One might expect a later board step to supply the origin when an earlier one finds no later
  travel path. It cannot: the forward search of a later step covers a suffix of the earlier
  search, so it fails too (`RouteStops.BoardRetryFutile`). The board stop exists exactly when some
  board step's search succeeds (`RouteStops.DeriveStopsBoardExists`).
- The overlay's deriver lets the names that pass one records win over intermediate stops. The
  modal's `getAllStops` has no such check. `RouteReview.NoPrecedenceExample` shows where the two
  derivers differ, and `RouteReview.DeriversAgree` shows that they agree whenever no intermediate
  name is special and there is no walk origin.

## Model

| member | source | states |
|---|---|---|
| RouteStep.RouteCoordinatesFrom | src/App.tsx:438-446 | every collected coordinate is a path point or the location of some step |
| RouteStep.RouteCoordinatesCover | src/App.tsx:438-446 | every path point and every location of every step is collected |
| RouteStep.RouteCoordinatesEmpty | src/App.tsx:438-448 | the list is empty exactly when no step has a non-empty path or a location |
| RouteStops.ClassifyRecords | src/App.tsx:250-261 | pass one records a name exactly when a named board, transfer or arrive step carries it (the board only while none was seen); the flag stays set iff no board step is named |
| RouteStops.CollectSpecialStops | src/App.tsx:244-261 | the loop builds the `specialStops` map of pass one |
| RouteStops.NextTravelStartFinds | src/App.tsx:288-298 | the forward search fails iff no later travel step has a path; on success it returns the first point of the first such step |
| RouteStops.FindBoardLocation | src/App.tsx:285-298 | the loop with `break` returns that first point, searching from the step after the board step |
| RouteStops.BoardRetryFutile | src/App.tsx:284-310 | once a board search fails, every later board search fails too |
| RouteStops.InterpolationInBounds | src/App.tsx:335-340 | the interpolation index is inside a non-empty polyline; for an empty polyline it is -1, so no stop is placed |
| RouteStops.InterpolationMonotone | src/App.tsx:336-337 | later names on a leg get indices no smaller than earlier ones |
| RouteStops.EarlierStepsFirst | src/App.tsx:265-363 | the stops derived from the first m steps are a prefix of those from the first n ≥ m steps |
| RouteStops.DeriveStopsProvenance | src/App.tsx:265-363 | each stop is what one branch of one step pushes, with that branch's role, name, location and line; stops follow step order, then branch order, then `stops_between` order |
| RouteStops.DeriveStopsFreshNames | src/App.tsx:313-362 | a transfer, intermediate or arrive stop never repeats the name of an earlier stop |
| RouteStops.TransferStopPresent | src/App.tsx:312-322 | every transfer step with a location and a name has a stop of that name: its own, or an earlier one that already took the name |
| RouteStops.ArriveStopPresent | src/App.tsx:352-362 | every arrive step with a location and a name has a stop of that name |
| RouteStops.IntermediateStopPresent | src/App.tsx:324-350 | every intermediate name that pass one did not record, and whose interpolated point lies on the polyline, has a stop of that name |
| RouteStops.SpecialNeverTravel | src/App.tsx:329-333 | no intermediate stop carries a name that pass one recorded, and in particular no transfer or arrive name |
| RouteStops.DeriveStopsOneBoard | src/App.tsx:284-310 | at most one board stop |
| RouteStops.DeriveStopsBoardExists | src/App.tsx:284-310 | a board stop exists iff some named board step has a later travel step with a path |
| RouteStops.DeriveStopsBoardPlaced | src/App.tsx:284-310 | the board stop comes from the first such board step, carries its name and line, and sits at the first point of the first later travel path |
| RouteStops.DeriveStopsWalk | src/App.tsx:267-281 | a walk stop can only be first; it is there iff step 0 is a walk with a path and `from`, and then it sits at the first point of that path |
| RouteStops.BoardRepeatsWalkName | src/App.tsx:273-309 | a walk from "X" then a board at "X" yields two stops named "X" |
| RouteStops.BoardRepeatsTransferName | src/App.tsx:284-322 | a transfer at "X" then a board at "X" yields a transfer stop and a board stop, both named "X": the board push skips the processed-names check |
| RouteStops.PushStopsBetween | src/App.tsx:324-350 | the `stops_between` loop appends, in name order, each name that is neither processed nor special, at its interpolated point when that point exists, and records it as processed |
| RouteStops.GetAllStopsFromRoute | src/App.tsx:229-366 | the two-pass method returns exactly the specified stops |
| RouteOverlay.LabelIndex | src/App.tsx:486 | the label index of a non-empty polyline is inside it |
| RouteOverlay.StepLabel | src/App.tsx:486-491 | a label sits at the label index, carries the line, and the step colour or "#FBBC04" |
| RouteOverlay.GetLineLabels | src/App.tsx:470-496 | the `forEach` returns the specified label list |
| RouteOverlay.LineLabelsPerLeg | src/App.tsx:477-493 | one label per travel step with a line and a non-empty path, in order, with no merging by line name |
| RouteOverlay.SameLineTwice | src/App.tsx:477-493 | two legs of the same line get two labels |
| RouteOverlay.StepSegment | src/App.tsx:556-573 | a step is drawn iff it has a non-empty path; walks are grey "#6B7280", weight 4 and dashed; others use the step colour or "#0c4a6e", weight 6, solid; opacity 0.9 |
| RouteOverlay.RoutePolylines | src/App.tsx:556-573 | one entry per step, present exactly for steps with a path, along that path |
| RouteOverlay.FitRouteBounds | src/App.tsx:432-456 | no route: no fit; otherwise a fit to the collected coordinates, requested only when that list is non-empty |
| RouteReview.GetAllStops | src/components/RouteDisplay.tsx:856-986 | the modal's method returns pass two with no special names and no walk branch; its `stops_between` loop (lines 929-960, which checks only the processed names) is `PushStopsBetween` with an empty set of special names |
| RouteReview.ReviewStopsShape | src/components/RouteDisplay.tsx:867-975 | no walk stop, at most one board stop, fresh names for transfer, intermediate and arrive stops |
| RouteReview.ReviewStopsProvenance | src/components/RouteDisplay.tsx:867-975 | every modal stop is justified by one branch of one step: a board stop at the first point of the first later travel path, transfer and arrive stops at their step's location, intermediates at their interpolated point; the stops follow step and branch order |
| RouteReview.ReviewStopsBoardPlaced | src/components/RouteDisplay.tsx:877-913 | the modal's board stop comes from the first named board step whose search succeeds, with its name and line, at the first point of the first later travel path |
| RouteReview.ReviewStopsComplete | src/components/RouteDisplay.tsx:916-975 | every transfer or arrive step with a location and a name, and every intermediate name whose interpolated point is on the polyline, has a stop of that name |
| RouteReview.DeriversAgree | src/components/RouteDisplay.tsx:856-986 | without special intermediate names and without a walk origin, the modal and the overlay derive the same stops |
| RouteReview.NoPrecedenceExample | src/components/RouteDisplay.tsx:938-942 | an intermediate "X" before a transfer at "X" is drawn as travel by the modal, which then drops the transfer; the overlay draws the transfer |
| RouteReview.GetAllCoordinates | src/components/RouteDisplay.tsx:840-853 | each step's path points, then its location, in step order |
| RouteReview.StepVisual | src/components/RouteDisplay.tsx:431-454 | a non-empty path wins (colour or "#0c4a6e", weight 5, opacity 0.8, dashed iff `type` is walk); else a transfer or arrive step with a location gets a marker there; else nothing |
| RouteReview.SamePathsAsOverlay | src/components/RouteDisplay.tsx:431-444 | the modal and the overlay draw paths for the same steps along the same points; a step with action walk but no walk type is dashed only on the overlay |
| RouteReview.StepColor | src/components/RouteDisplay.tsx:682-697 | an explicit colour wins; else board and travel "#0c4a6e", transfer "#f59e0b", arrive "#10b981", anything else "#6b7280" |
| RouteReview.StopsList.constructor | src/components/RouteDisplay.tsx:465 | the list starts expanded iff it has at most 5 stops |
| RouteReview.StopsList.DisplayStops | src/components/RouteDisplay.tsx:467 | all stops when expanded, the first 3 when collapsed |
| RouteReview.StopsList.MoreCount | src/components/RouteDisplay.tsx:597 | the "more" count is the total minus the shown stops, and is positive when collapsed |
| RouteReview.StopsList.Click | src/components/RouteDisplay.tsx:474 | a click toggles the list only when it has more than 5 stops |
| RouteReview.StopsList.ShowMore | src/components/RouteDisplay.tsx:579-582 | the "show more" button, rendered only while a long list is collapsed, expands the list |
| RouteReview.ModalCenter | src/components/RouteDisplay.tsx:1003-1004 | the first path point of step 0, else its location, else (36.7538, 3.0588); always the fallback or a route coordinate |
| MapFilters.Capitalize | src/helpers.ts:21-23 | length kept, first character upper-cased, the rest unchanged, "" to "" |
| MapFilters.CapitalizeIdempotent | src/helpers.ts:21-23 | capitalising twice equals capitalising once |
| MapFilters.LineOptions | src/helpers.ts:83-86 | one option per saved line, value the name, label the capitalised name |
| MapFilters.ModeToOption | src/helpers.ts:89-96 | a stop or bus mode keeps its value and gets the capitalised label |
| MapFilters.ToSelectOptions | src/helpers.ts:73-99 | "all" gives [All], "none" gives [None], a list keeps its values in order with the capitalised names as labels; stop and bus keep their modes, labelled with the capitalised mode |
| MapFilters.ToSavedFilters | src/helpers.ts:101-121 | a single "all" or "none" option gives that keyword, any other selection (the empty one too) the list of values; stop and bus copied |
| MapFilters.SavedRoundTrip | src/helpers.ts:73-121 | saved → options → saved is the identity, except that the lists ["all"] and ["none"] become the keywords |
| MapFilters.SaveIdempotent | src/helpers.ts:73-121 | a form state saved once is stable under reload and save |
| MapFilters.LinesToSelectOptions | src/helpers.ts:123-136 | "All"/"all", "None"/"none", then one option per line in order: n + 2 options |
| FilterForm.NextLineSelection | src/hooks/use-filters.ts:38-79 | empty → [None]; last "none" → [None]; last "all" or option count − 2 items → [All]; else the selection without keywords; always an update |
| FilterForm.LineSelectionShape | src/hooks/use-filters.ts:43-78 | the new line selection is never empty and is [None], [All] or keyword-free, keeping exactly the selected line names |
| FilterForm.SavedLinesAreNames | src/hooks/use-filters.ts:71-83 | after any line change, apply saves "all", "none" or a non-empty list without keywords |
| FilterForm.FiltersForm.constructor | src/hooks/use-filters.ts:16-18 | the form starts as the options of the saved filters |
| FilterForm.FiltersForm.HandleChange | src/hooks/use-filters.ts:20-36 | a line change follows the line rules; a stop or bus change replaces only that field; saved filters untouched |
| FilterForm.FiltersForm.LineChangeHandler | src/hooks/use-filters.ts:38-79 | the early-return handler sets the line field to the specified selection and nothing else |
| FilterForm.FiltersForm.HandleApply | src/hooks/use-filters.ts:81-83 | apply saves the conversion of the form and leaves the form unchanged |
| StopMarkers.BadgeWith | src/components/BusStopsMarkers.tsx:37-40 | a badge keeps the line name and uses the line colour when it is a non-empty string, else the fallback |
| StopMarkers.SelectStopsAsWritten | src/components/BusStopsMarkers.tsx:28-43 | the projection as written, with fallback "##0c4a6e" |
| StopMarkers.SelectStopsAsWrittenBadColor | src/components/BusStopsMarkers.tsx:39 | a stop line without colour gets "##0c4a6e", which is not a hex colour |
| StopMarkers.SelectStops | src/components/BusStopsMarkers.tsx:28-43 | one marker per stop keeping `id`, `title` = name, badges in order with the colour or "#0c4a6e" |
| StopMarkers.SelectStopsColorsValid | src/components/BusStopsMarkers.tsx:37-40 | with that fallback every badge colour is a hex colour when the supplied ones are |
| StopMarkers.FilteredStops | src/components/BusStopsMarkers.tsx:87-101 | stops or lines "all": identity; "none" lines with line-only: empty; a list with line-only: the stops served by a listed line; otherwise identity |
| StopMarkers.FilteredStopsSubsequence | src/components/BusStopsMarkers.tsx:87-101 | the result is always a subsequence of the input |
| StopMarkers.LineOnlyStopsMembership | src/components/BusStopsMarkers.tsx:94-98 | with a list, a stop is kept iff it is in the data and one of its lines is listed |
| StopMarkers.VisibleStops | src/components/BusStopsMarkers.tsx:46-48 | no data or stop filter "none": no markers; otherwise the filtered stops |
| StopMarkers.VisibleStopsModes | src/components/BusStopsMarkers.tsx:46-98 | "none" shows nothing, "all" every stop, line-only only loaded stops |
| LineMarkers.SelectLines | src/components/LineMarkers.tsx:41-50 | count kept, `id` = `name`, colour kept, missing waypoints become [] |
| LineMarkers.FilteredLines | src/components/LineMarkers.tsx:52-59 | "all" is the identity; a list keeps the lines whose name is listed |
| LineMarkers.FilteredLinesSelected | src/components/LineMarkers.tsx:58 | a line is kept iff it is in the data and its name is listed, order preserved |
| LineMarkers.LineShape | src/components/LineMarkers.tsx:23-38 | a line is drawn iff every waypoint is a coordinate pair, with its id as key and its colour |
| LineMarkers.DrawnLines | src/components/LineMarkers.tsx:9-39 | "none" or no lines: nothing; otherwise one entry per filtered line |
| LineMarkers.DrawnLinesSelected | src/components/LineMarkers.tsx:17-38 | every drawn polyline of a list filter is a loaded, listed line with well-formed waypoints |
| DeviceMarkers.FindByDevice | src/components/BusMarkers/AllDevicePositionMarkers.tsx:21-23 | the first position with the device id, present iff one exists |
| DeviceMarkers.MergeOne | src/components/BusMarkers/AllDevicePositionMarkers.tsx:25-27 | an unmatched position is unchanged; a matched one takes latitude, longitude and course from the first update |
| DeviceMarkers.MergePositions | src/components/BusMarkers/AllDevicePositionMarkers.tsx:20-28 | same length and order; ids and other fields kept; unmatched positions unchanged; matched ones moved |
| DeviceMarkers.MergeIdempotent | src/components/BusMarkers/AllDevicePositionMarkers.tsx:20-28 | applying the same event twice equals applying it once |
| DeviceMarkers.MergeUnrelated | src/components/BusMarkers/LineOnlyDevicePositionMarkers.tsx:58-71 | updates for none of the cached devices change nothing |
| DeviceMarkers.OnPositionUpdate | src/components/BusMarkers/LineOnlyDevicePositionMarkers.tsx:53-79 | only a position event with cached positions writes the cache, and it writes the merge |
| DeviceMarkers.OnPositionUpdateCases | src/components/BusMarkers/AllDevicePositionMarkers.tsx:19-33 | a device event writes nothing; an empty position event rewrites the cache unchanged |
| DeviceMarkers.AddBusIdsSpec | src/components/BusMarkers/LineOnlyDevicePositionMarkers.tsx:114-121 | the inner loop keeps the ids duplicate-free and non-empty and adds exactly the non-empty tracker ids of the buses |
| DeviceMarkers.BusIdsSpec | src/components/BusMarkers/LineOnlyDevicePositionMarkers.tsx:111-122 | the collected ids have no duplicates and no empty id, and are exactly the tracker ids on the lines |
| DeviceMarkers.FilteredDevicesData | src/components/BusMarkers/LineOnlyDevicePositionMarkers.tsx:102-125 | the nested loops return "none": [], "all": every device, a list: the devices whose `uniqueId` was collected |
| DeviceMarkers.FilteredDevicesSelected | src/components/BusMarkers/LineOnlyDevicePositionMarkers.tsx:111-124 | with a list, a device is kept iff its non-empty `uniqueId` is the tracker id of a bus on a listed line; order preserved |
| DeviceMarkers.DeviceMarker | src/components/BusMarkers/AllDevicePositionMarkers.tsx:43-45 | a device without a position gets no marker; otherwise the marker sits at its first position with its course |
| DeviceMarkers.MarkersFor | src/components/BusMarkers/LineOnlyDevicePositionMarkers.tsx:87-99 | one entry per device, in device order |
| DeviceMarkers.AllMarkers | src/components/BusMarkers/AllDevicePositionMarkers.tsx:40-60 | nothing until positions and devices are loaded, then one entry per device |
| DeviceMarkers.LineOnlyMarkers | src/components/BusMarkers/LineOnlyDevicePositionMarkers.tsx:83-99 | nothing until positions, devices and lines are loaded, then one entry per filtered device |
| DeviceMarkers.BusLayer | src/components/BusMarkers/DevicePositionMarkers.tsx:5-14 | bus filter "none": nothing; "all": every device; line-only: the devices of the lines |
| DeviceMarkers.BusLayerShowsTrackedDevices | src/components/BusMarkers/LineOnlyDevicePositionMarkers.tsx:83-99 | every bus marker stands for a loaded device with a position; in line-only mode with a list, a device tracked on a listed line |

## Left out

- RouteStops.InterpolationInBounds: the index `floor((idx+1)/(n+1)*(m-1))` is computed in the code
  in doubles. The model uses the exact integer value `((idx+1)*(m-1)) div (n+1)`. The two can
  differ at exact boundaries: `(1/49)*49` evaluates below 1, so for n = 48, m = 50 and idx = 0 the
  code takes index 0 where the model takes 1.
- RouteOverlay.LabelIndex: `floor(L*0.15)` is modelled as `(15*L) div 100`. This assumes the
  double product floors to the same integer as the exact one. The `|| polyline[0]` fallback
  never applies, because the index is in range.
- MapFilters.Capitalize: upper-casing is ASCII only. JavaScript's `toUpperCase` is Unicode-aware
  and can change the length ('ß' becomes "SS").
- StopMarkers.SelectStops: `parseFloat` of the stop coordinates is not modelled. The query's
  coordinates are taken as numbers.
- Coordinates are real numbers; nothing is computed on them.
- Rendering is not modelled: JSX, Leaflet icons, the `divIcon` builders, popups and their texts,
  marker keys and z-index. The bus marker's title and popup (`name ?? "Unknown"`, capitalised
  category or "bus") are left out with the popups.
- The `getAction*` helpers of the popups and the translated step texts (i18n) are not modelled.
- Timers and map calls are not modelled: the `setTimeout` + `fitBounds` of the viewport fit and
  the modal. `FitRouteBounds` returns the coordinate list it would fit.
- Network, sockets and sessions are not modelled: the queries, the Traccar session and the
  WebSocket listener. A socket message is modelled as an already parsed `SocketEvent`, so
  `JSON.parse` is not modelled either.
- Stores are not modelled as libraries:
  - the React Query cache write is modelled as the value `OnPositionUpdate` returns;
  - the zustand filter store is the `savedFilters` field of `FiltersForm`;
  - local storage is not modelled.
- RouteReview.StopsList: the stop list is fixed when the component mounts, as React's state
  initialiser runs once. A change of the `stops` prop is not modelled.
- FilterForm.FiltersForm.HandleChange: a `null` single value from the select is not modelled.
  The stop and bus selects always report an option.
- Only the fields the core reads are kept in the route step, stop, line, position and device
  records.
- The modal state of the bus-stop layer (selected stop, open/close timer) is UI and is left out.
- Concurrency between socket messages and renders is not modelled. Each handler call sees one
  snapshot of the cached positions.

## Findings

| source | as written | input that shows it | evidently intended | confidence | as-written member | corrected member |
|---|---|---|---|---|---|---|
| src/components/BusStopsMarkers.tsx:39 | a stop line without a colour falls back to "##0c4a6e" | a stop with one line whose `color` is missing or empty; its badge colour is "##0c4a6e", eight characters with a doubled `#`, not a CSS colour | "#0c4a6e", the app's default route blue used elsewhere | high, not executed | StopMarkers.SelectStopsAsWritten (shown by StopMarkers.SelectStopsAsWrittenBadColor) | StopMarkers.SelectStops (StopMarkers.SelectStopsColorsValid) |
