# Tourist route planner: route handler, waypoint optimiser and coordinate correction

This project models the route-planning core of a small tourist-map web service.

A request names a start attraction, an end attraction, optional intermediate attractions and a travel mode:
- `walk`, `drive` or `bus`; for `bus`, one of four bus strategies;
- or `fast`, which picks the quickest mode that has a direct start-to-end edge.

The handler works in these steps:
- It resolves the names to attraction codes over the attraction table.
- It picks the edge network of the mode.
- It asks the optimiser for the cheapest order in which to visit the intermediate stops and the end.
- It walks that order hop by hop. For each hop it:
  - sums distance and duration;
  - draws the hop as the edge's origin;
  - adds the hop's recorded trace, corrected from GCJ-02 to WGS-84 coordinates;
  - finishes with the edge's destination.
- It answers with:
  - the path and the totals;
  - the waypoint names;
  - a colour for the mode;
  - for bus requests, the fare record of the direct bus edge.

The optimiser tries every ordering, in the order the standard permutation generator yields them. It abandons an ordering at a missing edge, or once its running total reaches the best total so far. It keeps the first ordering of smallest total. It looks each hop up at most once through a memo table.

Modules:
- `Records` holds the data: attractions, edges with their optional bus fare, and traces.
- `Paths` holds the edge lookups (`find_path`, `find_fast_path`). It also defines the cost of walking an ordering, with infinity for a missing hop.
- `Orderings` holds the permutation generator in generation order.
- `Optimizer` holds the optimiser. Its pruned, memoised loop is proved equal to a plain unpruned search, and the unpruned search is proved optimal.
- `Midpoints` parses a `;`-separated stop list.
- `ToGps` holds the GCJ-02 to WGS-84 correction and its batch form.
- `App` holds the request handler. The method `App.OptimalPath` is proved equal to the function `App.PlannedRoute`, and the answer's properties are proved about that function.

Where the handler would crash with an internal error, the model returns `InvalidMode`. That happens for an unknown mode, and for `bus` with an unknown strategy (the network variable is then never bound).

The code differs from the behaviour one might expect from its description in two places. The model follows the code:
- **Start and end with the same name.** The resolution loop is an `if`/`elif` chain, so an attraction that matches the start name is never taken as the end. The request is then answered "not found" (`App.SameNameIsNotFound`).
- **No ordering can be walked.** The optimiser returns an empty order and the answer is still a route: an empty path, zero distance, zero duration, and only the start as waypoint (`App.UnreachableLooksEmpty`).

## Model

| member | source | states |
|---|---|---|
| ToGps.OutOfChina | ToGPS.py:9-14 | true exactly when the point lies outside the box 72.004..137.8347 longitude, 0.8293..55.8271 latitude, with the bounds inside |
| ToGps.BoundaryIsInside | ToGPS.py:9-14 | the box corners count as inside; points just past a bound count as outside |
| ToGps.Gcj02ToWgs84 | ToGPS.py:33-46 | outside the box the point comes back unchanged; inside, the drift estimated at the point (shifted by 105, 35) is subtracted from each coordinate |
| ToGps.CorrectionInvertsObfuscation | ToGPS.py:33-46 | applying the forward obfuscation to the corrected point gives back the input, whenever the drift is the same at both points and the corrected point is still inside the box |
| ToGps.OutsideIsFixed | ToGPS.py:34-35 | a point far outside the box is fixed by both the correction and the obfuscation, whatever the drift |
| ToGps.ConvertAll | ToGPS.py:60-63 | one output per input, in order; each is the pairwise conversion of the matching input |
| ToGps.BatchGcj02ToWgs84 | ToGPS.py:49-65 | an error exactly when the format is neither "lon_lat" nor "lat_lon"; otherwise the output has the input's length; "lon_lat" converts each pair; "lat_lon" converts each swapped pair and swaps the result back |
| ToGps.LatLonIsSwappedLonLat | ToGPS.py:60-63 | converting latitude-first input equals swapping it, converting it longitude-first, and swapping the results back |
| Midpoints.Split | functions.py:166 | splitting always yields at least one piece |
| Midpoints.SplitCount | functions.py:166 | the number of pieces is the number of separators plus one |
| Midpoints.SplitPiecesHaveNoSeparator | functions.py:166 | no piece contains the separator |
| Midpoints.JoinSplit | functions.py:166 | joining the pieces with the separator gives back the original text |
| Midpoints.StripIsMaximalTrim | functions.py:166 | a stripped piece is the piece minus an all-whitespace prefix and an all-whitespace suffix, and it neither starts nor ends with whitespace |
| Midpoints.SplitMidpoints | functions.py:163-167 | the i-th stop is the stripped i-th `;`-separated piece, and there is one stop per piece |
| Midpoints.SplitMidpointsShape | functions.py:163-167 | the number of stops is the number of `;` plus one, so the list is never empty; no stop contains `;`, and no stop starts or ends with whitespace |
| Paths.Lookup | functions.py:100-101 | a found edge runs from the requested start code to the requested end code |
| Paths.LookupIsFirstMatch | functions.py:98-113 | nothing is found exactly when no edge connects the pair; otherwise the found edge sits at a position where no earlier edge connects the pair |
| Paths.FindPath | functions.py:98-113 | the loop returns nothing exactly when no edge connects the pair; otherwise it returns the names, endpoints, distance and duration of the first connecting edge (app.py holds an identical copy of this function) |
| Paths.FindFastPath | app.py:201-205 | the loop returns nothing exactly when no edge connects the pair; otherwise it returns the duration of the first connecting edge |
| Paths.PathCostStep | functions.py:228-233 | walking one more stop adds that hop's distance to the cost; the sum is infinite when the hop has no edge |
| Paths.CostUpToIsPrefixCost | functions.py:224-233 | the running total after i hops equals the cost of the first i stops |
| Paths.CostUpToFeasible | functions.py:228-233 | if the running total after j hops is finite, every hop before j has an edge |
| Paths.PrefixCostAtMost | functions.py:234-236 | a walk costs at least as much as any prefix of it, which makes the early break sound |
| Orderings.PermutationsSound | functions.py:223 | every generated ordering is a rearrangement of the input (equal multisets) |
| Orderings.PermutationsComplete | functions.py:223 | every rearrangement of the input is generated |
| Optimizer.Unpruned | functions.py:170-201 | the kept ordering is empty when the best total is infinite; otherwise it is one of the candidates, and the best total is its cost |
| Optimizer.UnprunedStep | functions.py:197-199 | a new candidate replaces the best only when it is strictly cheaper |
| Optimizer.UnprunedIsMinimal | functions.py:197-199 | the kept total is at most the cost of every candidate |
| Optimizer.UnprunedIsFirst | functions.py:197-199 | every candidate before the kept one is strictly dearer |
| Optimizer.UnprunedEmptyIff | functions.py:190-201 | nothing is kept exactly when every candidate has a hop without an edge |
| Optimizer.OptimalOrderIsPermutation | functions.py:206-245 | a non-empty answer visits the required stops and the end exactly as often as they were requested, without the start, at finite cost |
| Optimizer.OptimalOrderEmptyIff | functions.py:237-245 | the answer is empty exactly when every ordering of the stops has a hop without an edge |
| Optimizer.OptimalOrderIsOptimal | functions.py:223-243 | a non-empty answer costs no more than any ordering of the stops |
| Optimizer.OptimalOrderTieRule | functions.py:241-243 | the answer is a generated ordering, and every ordering generated before it is strictly dearer, so ties go to the first |
| Optimizer.OptimalOrderFeasible | functions.py:241-245 | the answer can always be walked: its cost is finite, and zero when it is empty |
| Optimizer.GetPathDistance | functions.py:215-221 | the result is the hop's edge distance, or infinity when there is no edge; the memo keeps every old entry, gains the hop, and stays correct |
| Optimizer.PruneStep | functions.py:234-236 | once the running total reaches the best total, the whole ordering cannot beat the best |
| Optimizer.InfeasibleStep | functions.py:237-239 | a hop without an edge makes the whole ordering infinite, so it cannot beat the best |
| Optimizer.WalkCandidate | functions.py:224-239 | the memo stays correct; the returned total is below the best exactly when the ordering's full cost is; in that case the total is that cost and the path is the start followed by the whole ordering |
| Optimizer.CalculateDistance | functions.py:206-245 | the pruned, memoised search returns exactly the unpruned search's best ordering, without the start |
| Optimizer.ThroughStopBeatsDirect | functions.py:206-245 | on a three-attraction network where nothing runs from the end back to the stop, the answer is the stop and then the end, at cost 300 and duration 180 |
| App.ColorOf | app.py:175 | bus is red, walk is green, drive is blue, each an if-and-only-if |
| App.ResolveNames | app.py:60-70 | the loop yields: the code of the last attraction with the start name; the code of the last one with the end name, or none when that name equals the start name; and, in table order, the codes of attractions named in the request that are neither |
| App.LastCodeNamedAt | app.py:64-66 | the start code is absent exactly when no attraction has the name; otherwise it belongs to an attraction with that name, and no later attraction has it |
| App.MidCodesComplete | app.py:64-70 | every attraction named in the request, other than the start and the end, contributes its code |
| App.MidCodesIgnoreRequestOrder | app.py:69-70 | requests naming the same set of attractions yield the same stops, whatever their order or repetition |
| App.RolesAreDisjoint | app.py:64-70 | with distinct codes, neither the start code nor the end code is among the intermediate stops |
| App.FastMode | app.py:118-131 | nothing is chosen exactly when no mode has a direct edge; the chosen mode has one, and its duration is minimal; every mode earlier in the order walk, drive, bus that has an edge is strictly slower |
| App.NameOf | app.py:142-145 | no name exactly when no attraction has the code; otherwise the name of an attraction with that code |
| App.WaypointNames | app.py:139-145 | one entry per visited code, in order, each the name for that code or none |
| App.LonLatBatchIsCorrected | app.py:162-163 | converting a trace as "lon_lat" never fails, and gives each point corrected |
| App.RouteTotalsAgree | app.py:149-159 | the summed duration is the walk's duration; on a walk where every hop has an edge, the summed distance is the walk's cost |
| App.InsertBeforeLast | app.py:165-166 | inserting the points one at a time before the last element places all of them, in order, between the original last element and everything before it |
| App.WalkHop | app.py:155-166 | the path grows by the hop's origin, then its corrected trace, then its destination; the hop's duration and distance are reported |
| App.AssembleRoute | app.py:149-168 | the drawn path and totals are those of the chosen ordering; the distance is the ordering's cost, and the duration is the sum of its hop durations |
| App.FindBusInfo | app.py:104-113 | the fare record of the first bus edge from start to end, or none when there is no such edge |
| App.OptimalPath | app.py:51-181 | the handler's answer is exactly the planned route (name resolution, network choice, optimal ordering, totals, waypoints, colour, fare) |
| App.SameNameIsNotFound | app.py:64-73 | a request whose start and end carry the same name is answered "not found" |
| App.PlannedRouteIsShortest | app.py:135-173 | whenever some ordering of the stops can be walked, the request is answered, and the answered distance is at most that ordering's cost |
| App.UnreachableLooksEmpty | app.py:135-174 | when no ordering can be walked, the answer is a route with an empty path, zero distance, zero duration and only the start as waypoint |

## Left out

- Data-file loading (`load_attractions`, `load_paths`, `load_paths_v2`): file I/O. The tables are a parameter.
  - The attraction dictionary, keyed by code, is a sequence of its values in insertion order. Its codes are distinct (`UniqueCodes`) where a property needs it.
  - Each mode's network bundles its edge list with the traces of its road file.
- Bus tables: the handler reloads one of them per bus request. The model reads them from the same static tables, since they hold the same file contents.
- `find_polylines_in_file`:
  - it reads a file, evaluates each line, and silently skips lines it cannot parse or that it fails to read;
  - it is modelled as `Paths.TracePoints`, the points of the first trace with the hop's endpoints, or none;
  - the text parsing, the stripping of endpoint keys, and the error printing are not modelled.
- The trigonometric drift (`transform_lon`, `transform_lat`, the ellipsoid constants): the model cannot state sine, cosine or square root. It is a function parameter `drift`, so the correction's exact numbers are not captured, only its structure.
- Coordinates are exact reals, not floating point.
- Distances and durations are whole numbers. The bus records' string or float fields and their `int(...)` truncation are not modelled.
- `batch_gcj02_to_wgs84`'s default argument: the only call passes "lon_lat" explicitly.
- The edge record's `type` field: it is always "drive" and never read.
- Flask plumbing: reading the JSON request, serialising the response, HTTP status codes, and `print` output.
  - The failures are the `Failure` datatype: not found (404) and invalid mode.
  - A missing `midpoints` field is an empty list.
  - The merged bus fare is the optional `busInfo` field.
- The transform.py module: it is not part of this model.
- Midpoints.IsSpace: only ASCII whitespace is stripped. The Unicode whitespace that Python's `str.strip` also removes is not modelled.
- The optimiser's enumeration is over all orderings. The model says nothing about its running time.
