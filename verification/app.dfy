/** The route request handler: resolve attraction names to codes, choose the
    edge network for the requested mode (or the fastest one), order the stops
    with the optimiser, and assemble totals, the drawn path, the waypoint
    names, the colour and the optional bus fare. */
module App {
  import opened Records
  import opened Paths
  import opened Optimizer
  import opened ToGps

  datatype TravelMode = Walk | Drive | Bus

  datatype Color = Red | Green | Blue

  /** Each mode is drawn in its own colour: bus red, walk green, drive blue. */
  function ColorOf(mode: TravelMode): (c: Color)
    ensures c == Red <==> mode == Bus
    ensures c == Green <==> mode == Walk
    ensures c == Blue <==> mode == Drive
  {
    match mode
    case Bus => Red
    case Walk => Green
    case Drive => Blue
  }

  // ---------------------------------------------------------------------
  // Name resolution

  /** The code of the last attraction, in table order, with this name. */
  function LastCodeNamed(table: seq<Attraction>, name: Name): Option<Code>
    decreases |table|
  {
    if table == [] then None
    else
      var n := |table| - 1;
      if table[n].name == name then Some(table[n].code) else LastCodeNamed(table[..n], name)
  }

  /** An attraction named like the start is taken as the start and nothing
      else, so the end is only found under a different name. */
  function EndCodeNamed(table: seq<Attraction>, startName: Name, endName: Name): Option<Code> {
    if endName == startName then None else LastCodeNamed(table, endName)
  }

  /** The intermediate stops: codes of the attractions, in table order, whose
      name is requested and is neither the start's nor the end's name. */
  function MidCodes(table: seq<Attraction>, startName: Name, endName: Name, midNames: seq<Name>): seq<Code>
    decreases |table|
  {
    if table == [] then []
    else
      var n := |table| - 1;
      var a := table[n];
      MidCodes(table[..n], startName, endName, midNames)
        + (if a.name != startName && a.name != endName && a.name in midNames then [a.code] else [])
  }

  /** The resolution loop over the attraction table. */
  method ResolveNames(table: seq<Attraction>, startName: Name, endName: Name, midNames: seq<Name>)
    returns (startCode: Option<Code>, endCode: Option<Code>, midCodes: seq<Code>)
    ensures startCode == LastCodeNamed(table, startName)
    ensures endCode == EndCodeNamed(table, startName, endName)
    ensures midCodes == MidCodes(table, startName, endName, midNames)
  {
    startCode, endCode, midCodes := None, None, [];
    for i := 0 to |table|
      invariant startCode == LastCodeNamed(table[..i], startName)
      invariant endCode == EndCodeNamed(table[..i], startName, endName)
      invariant midCodes == MidCodes(table[..i], startName, endName, midNames)
    {
      var attr := table[i];
      assert table[..i + 1][..i] == table[..i];
      if attr.name == startName {
        startCode := Some(attr.code);
      } else if attr.name == endName {
        endCode := Some(attr.code);
      } else if attr.name in midNames {
        midCodes := midCodes + [attr.code];
      }
    }
    assert table[..|table|] == table;
  }

  /** The stops follow the attraction table, not the request: any request
      naming the same attractions, in any order and with any repetition,
      yields the same stops. */
  lemma {:induction false} MidCodesIgnoreRequestOrder(table: seq<Attraction>, startName: Name, endName: Name,
                                                      names1: seq<Name>, names2: seq<Name>)
    requires forall name :: name in names1 <==> name in names2
    ensures MidCodes(table, startName, endName, names1) == MidCodes(table, startName, endName, names2)
    decreases |table|
  {
    if table != [] {
      MidCodesIgnoreRequestOrder(table[..|table| - 1], startName, endName, names1, names2);
    }
  }

  predicate UniqueCodes(table: seq<Attraction>) {
    forall i, j | 0 <= i < j < |table| :: table[i].code != table[j].code
  }

  /** Resolution finds nothing exactly when no attraction has the name, and
      otherwise the code of the last attraction, in table order, that has it. */
  lemma {:induction false} LastCodeNamedAt(table: seq<Attraction>, name: Name) returns (k: nat)
    ensures LastCodeNamed(table, name).None? <==> forall j | 0 <= j < |table| :: table[j].name != name
    ensures LastCodeNamed(table, name).Some? ==>
      && k < |table| && table[k].name == name && table[k].code == LastCodeNamed(table, name).value
      && forall j | k < j < |table| :: table[j].name != name
    decreases |table|
  {
    if table == [] {
      k := 0;
    } else {
      var n := |table| - 1;
      if table[n].name == name {
        k := n;
      } else {
        k := LastCodeNamedAt(table[..n], name);
        assert forall j | 0 <= j < n :: table[..n][j] == table[j];
      }
    }
  }

  lemma {:induction false} MidCodeAt(table: seq<Attraction>, startName: Name, endName: Name, midNames: seq<Name>, c: Code)
    returns (k: nat)
    requires c in MidCodes(table, startName, endName, midNames)
    ensures k < |table| && table[k].code == c
    ensures table[k].name != startName && table[k].name != endName && table[k].name in midNames
    decreases |table|
  {
    var n := |table| - 1;
    var a := table[n];
    var prev := MidCodes(table[..n], startName, endName, midNames);
    if c in prev {
      k := MidCodeAt(table[..n], startName, endName, midNames, c);
    } else {
      k := n;
    }
  }

  /** Every attraction whose name is requested, and is neither the start's
      nor the end's, contributes its code. */
  lemma {:induction false} MidCodesComplete(table: seq<Attraction>, startName: Name, endName: Name,
                                            midNames: seq<Name>, k: nat)
    requires k < |table|
    requires table[k].name != startName && table[k].name != endName && table[k].name in midNames
    ensures table[k].code in MidCodes(table, startName, endName, midNames)
    decreases |table|
  {
    var n := |table| - 1;
    if k < n {
      MidCodesComplete(table[..n], startName, endName, midNames, k);
    }
  }

  /** With distinct codes (the table is keyed by code), the start and the end
      are never also taken as intermediate stops. */
  lemma RolesAreDisjoint(table: seq<Attraction>, startName: Name, endName: Name, midNames: seq<Name>)
    requires UniqueCodes(table)
    ensures var mids := MidCodes(table, startName, endName, midNames);
      && (LastCodeNamed(table, startName).Some? ==> LastCodeNamed(table, startName).value !in mids)
      && (EndCodeNamed(table, startName, endName).Some? ==> EndCodeNamed(table, startName, endName).value !in mids)
  {
    var mids := MidCodes(table, startName, endName, midNames);
    if LastCodeNamed(table, startName).Some? {
      var c := LastCodeNamed(table, startName).value;
      var k := LastCodeNamedAt(table, startName);
      if c in mids {
        var k' := MidCodeAt(table, startName, endName, midNames, c);
        assert false;
      }
    }
    if EndCodeNamed(table, startName, endName).Some? {
      var c := EndCodeNamed(table, startName, endName).value;
      var k := LastCodeNamedAt(table, endName);
      if c in mids {
        var k' := MidCodeAt(table, startName, endName, midNames, c);
        assert false;
      }
    }
  }

  /** A resolved code counts only when present and non-empty. */
  predicate IsSet(code: Option<Code>) {
    code.Some? && code.value != ""
  }

  // ---------------------------------------------------------------------
  // Fast-mode selection

  /** The direct start-to-end duration of one mode, from the three lookups. */
  function DirectDuration(mode: TravelMode, walk: Option<nat>, drive: Option<nat>, bus: Option<nat>): Option<nat> {
    match mode
    case Walk => walk
    case Drive => drive
    case Bus => bus
  }

  /** Tie-break priority: walk first, then drive, then bus. */
  function Priority(mode: TravelMode): nat {
    match mode
    case Walk => 0
    case Drive => 1
    case Bus => 2
  }

  predicate NoSlower(d: nat, other: Option<nat>) {
    other.None? || d <= other.value
  }

  /** The quickest mode with a direct edge; nothing when no mode has one. */
  function FastMode(walk: Option<nat>, drive: Option<nat>, bus: Option<nat>): (r: Option<TravelMode>)
    ensures r.None? <==> walk.None? && drive.None? && bus.None?
    ensures r.Some? ==> DirectDuration(r.value, walk, drive, bus).Some?
    ensures r.Some? ==> forall m | DirectDuration(m, walk, drive, bus).Some? ::
      DirectDuration(r.value, walk, drive, bus).value <= DirectDuration(m, walk, drive, bus).value
    ensures r.Some? ==> forall m | Priority(m) < Priority(r.value) && DirectDuration(m, walk, drive, bus).Some? ::
      DirectDuration(r.value, walk, drive, bus).value < DirectDuration(m, walk, drive, bus).value
  {
    if walk.Some? && NoSlower(walk.value, drive) && NoSlower(walk.value, bus) then Some(Walk)
    else if drive.Some? && NoSlower(drive.value, walk) && NoSlower(drive.value, bus) then Some(Drive)
    else if bus.Some? && NoSlower(bus.value, walk) && NoSlower(bus.value, drive) then Some(Bus)
    else None
  }

  // ---------------------------------------------------------------------
  // Waypoint names

  /** The name of the attraction with this code, if the table has one. */
  function NameOf(table: seq<Attraction>, code: Code): (r: Option<Name>)
    ensures r.None? <==> forall k | 0 <= k < |table| :: table[k].code != code
    ensures r.Some? ==> exists k | 0 <= k < |table| :: table[k].code == code && table[k].name == r.value
  {
    if table == [] then None
    else if table[0].code == code then Some(table[0].name)
    else
      var r := NameOf(table[1..], code);
      assert forall k | 1 <= k < |table| :: table[k] == table[1..][k - 1];
      r
  }

  function NamesOf(table: seq<Attraction>, codes: seq<Code>): seq<Option<Name>> {
    seq(|codes|, i requires 0 <= i < |codes| => NameOf(table, codes[i]))
  }

  /** One name per visited code, in order; codes missing from the table give
      no name. */
  method WaypointNames(table: seq<Attraction>, bestPath: seq<Code>) returns (names: seq<Option<Name>>)
    ensures |names| == |bestPath|
    ensures forall i | 0 <= i < |bestPath| :: names[i] == NameOf(table, bestPath[i])
  {
    names := [];
    for i := 0 to |bestPath|
      invariant |names| == i
      invariant forall k | 0 <= k < i :: names[k] == NameOf(table, bestPath[k])
    {
      names := names + [NameOf(table, bestPath[i])];
    }
  }

  // ---------------------------------------------------------------------
  // Per-hop assembly

  function ToPoints(pairs: seq<(real, real)>): seq<Point> {
    seq(|pairs|, k requires 0 <= k < |pairs| => Point(pairs[k].0, pairs[k].1))
  }

  /** A hop's trace with every (longitude, latitude) point corrected. */
  function Corrected(drift: Drift, points: seq<(real, real)>): seq<Point> {
    seq(|points|, k requires 0 <= k < |points| =>
      Point(Gcj02ToWgs84(drift, points[k].0, points[k].1).0, Gcj02ToWgs84(drift, points[k].0, points[k].1).1))
  }

  /** Converting a trace as (longitude, latitude) pairs never fails and
      yields the corrected points. */
  lemma LonLatBatchIsCorrected(drift: Drift, points: seq<(real, real)>)
    ensures BatchGcj02ToWgs84(drift, points, "lon_lat").Ok?
    ensures ToPoints(BatchGcj02ToWgs84(drift, points, "lon_lat").value) == Corrected(drift, points)
  {
  }

  /** What the hop loop accumulates: the drawn path, the summed duration and
      the summed distance. */
  datatype Totals = Totals(path: seq<Point>, duration: nat, distance: nat)

  /** One hop's share: its drawn shape (the edge's origin, the corrected
      trace of the hop, the edge's destination), its duration and its
      distance; a hop without an edge adds nothing. */
  function HopTotals(net: Network, drift: Drift, hopStart: Code, hopEnd: Code): Totals {
    match Lookup(net.edges, hopStart, hopEnd)
    case Some(e) =>
      Totals([e.origin] + Corrected(drift, TracePoints(net.traces, hopStart, hopEnd)) + [e.destination],
             e.duration, e.distance)
    case None => Totals([], 0, 0)
  }

  /** The totals of the first `i` hops of a walk, hop after hop. */
  function TotalsUpTo(net: Network, drift: Drift, start: Code, order: seq<Code>, i: nat): Totals
    requires i <= |order|
  {
    if i == 0 then Totals([], 0, 0)
    else
      var t := TotalsUpTo(net, drift, start, order, i - 1);
      var h := HopTotals(net, drift, Pos(start, order, i - 1), order[i - 1]);
      Totals(t.path + h.path, t.duration + h.duration, t.distance + h.distance)
  }

  /** The totals of a whole walk. */
  function RouteTotals(net: Network, drift: Drift, start: Code, order: seq<Code>): Totals {
    TotalsUpTo(net, drift, start, order, |order|)
  }

  lemma {:induction false} TotalsUpToAgree(net: Network, drift: Drift, start: Code, order: seq<Code>, i: nat)
    requires i <= |order|
    ensures TotalsUpTo(net, drift, start, order, i).duration == DurationUpTo(net.edges, start, order, i)
    ensures CostUpTo(net.edges, start, order, i).Fin? ==>
      CostUpTo(net.edges, start, order, i) == Fin(TotalsUpTo(net, drift, start, order, i).distance)
  {
    if i > 0 {
      TotalsUpToAgree(net, drift, start, order, i - 1);
    }
  }

  /** The accumulated duration is the walk's duration, and on a walk with
      every edge present the accumulated distance is the walk's cost. */
  lemma RouteTotalsAgree(net: Network, drift: Drift, start: Code, order: seq<Code>)
    ensures RouteTotals(net, drift, start, order).duration == TotalDuration(net.edges, start, order)
    ensures PathCost(net.edges, start, order).Fin? ==>
      PathCost(net.edges, start, order) == Fin(RouteTotals(net, drift, start, order).distance)
  {
    TotalsUpToAgree(net, drift, start, order, |order|);
    CostUpToIsPrefixCost(net.edges, start, order, |order|);
    assert order[..|order|] == order;
  }

  /** Inserts the points one by one just before the last element, so they
      end up in order between the second-to-last and the last element. */
  method InsertBeforeLast(path: seq<Point>, points: seq<Point>) returns (result: seq<Point>)
    requires path != []
    ensures result == path[..|path| - 1] + points + [path[|path| - 1]]
  {
    result := path;
    for j := 0 to |points|
      invariant result == path[..|path| - 1] + points[..j] + [path[|path| - 1]]
    {
      result := result[..|result| - 1] + [points[j]] + [result[|result| - 1]];
      assert points[..j + 1] == points[..j] + [points[j]];
    }
    assert points[..|points|] == points;
  }

  /** One hop of the loop: look the hop's edge up, append its origin and
      destination to the drawn path, splice the corrected trace between them,
      and report the hop's distance and duration. */
  method WalkHop(net: Network, drift: Drift, fullPath: seq<Point>, currentStart: Code, midCode: Code)
    returns (extended: seq<Point>, duration: nat, distance: nat)
    requires Lookup(net.edges, currentStart, midCode).Some?
    ensures var h := HopTotals(net, drift, currentStart, midCode);
      extended == fullPath + h.path && duration == h.duration && distance == h.distance
  {
    var path := FindPath(net.edges, currentStart, midCode);
    var hop := path.value;
    extended := fullPath + [hop.origin, hop.destination];
    var polylinePoints := TracePoints(net.traces, currentStart, midCode);
    LonLatBatchIsCorrected(drift, polylinePoints);
    var wgs84 := BatchGcj02ToWgs84(drift, polylinePoints, "lon_lat").value;
    ghost var trace := Corrected(drift, polylinePoints);
    assert HopTotals(net, drift, currentStart, midCode).path == [hop.origin] + trace + [hop.destination];
    assert extended[..|extended| - 1] == fullPath + [hop.origin];
    extended := InsertBeforeLast(extended, ToPoints(wgs84));
    assert extended == fullPath + ([hop.origin] + trace + [hop.destination]);
    duration, distance := hop.duration, hop.distance;
  }

  /** The hop loop: sum distances and durations along the chosen order and
      draw each hop in turn. */
  method AssembleRoute(net: Network, drift: Drift, startCode: Code, bestPath: seq<Code>)
    returns (fullPath: seq<Point>, totalDuration: nat, totalDistance: nat)
    requires PathCost(net.edges, startCode, bestPath).Fin?
    ensures Totals(fullPath, totalDuration, totalDistance) == RouteTotals(net, drift, startCode, bestPath)
    ensures PathCost(net.edges, startCode, bestPath) == Fin(totalDistance)
    ensures totalDuration == TotalDuration(net.edges, startCode, bestPath)
  {
    CostUpToIsPrefixCost(net.edges, startCode, bestPath, |bestPath|);
    assert bestPath[..|bestPath|] == bestPath;
    fullPath, totalDuration, totalDistance := [], 0, 0;
    var currentStart := startCode;
    for i := 0 to |bestPath|
      invariant currentStart == Pos(startCode, bestPath, i)
      invariant Totals(fullPath, totalDuration, totalDistance) == TotalsUpTo(net, drift, startCode, bestPath, i)
    {
      var midCode := bestPath[i];
      CostUpToFeasible(net.edges, startCode, bestPath, i, |bestPath|);
      var duration, distance;
      fullPath, duration, distance := WalkHop(net, drift, fullPath, currentStart, midCode);
      totalDuration := totalDuration + duration;
      totalDistance := totalDistance + distance;
      currentStart := midCode;
    }
    RouteTotalsAgree(net, drift, startCode, bestPath);
  }

  // ---------------------------------------------------------------------
  // Bus fare

  function FareOf(e: Option<Edge>): Option<BusFare> {
    match e
    case Some(edge) => edge.fare
    case None => None
  }

  /** The fare of the first bus edge running directly from start to end. */
  method FindBusInfo(edges: seq<Edge>, start: Code, end: Code) returns (info: Option<BusFare>)
    ensures info == FareOf(Lookup(edges, start, end))
  {
    info := None;
    for i := 0 to |edges|
      invariant Lookup(edges[i..], start, end) == Lookup(edges, start, end)
    {
      if edges[i].fromCode == start && edges[i].toCode == end {
        info := edges[i].fare;
        return;
      }
      assert edges[i..][1..] == edges[i + 1..];
    }
  }

  // ---------------------------------------------------------------------
  // The whole request

  /** The networks loaded from the data files: one per mode, one per bus
      strategy.  The quick bus strategy also serves the fast mode. */
  datatype Tables = Tables(
    attractions: seq<Attraction>,
    walk: Network,
    drive: Network,
    busEconomic: Network,
    busFewestTransfers: Network,
    busFewestWalks: Network,
    busQuick: Network)

  datatype Request = Request(start: Name, end: Name, mode: string, midpoints: seq<Name>, busMode: string)

  datatype Route = Route(
    path: seq<Point>,
    duration: nat,
    distance: nat,
    waypoints: seq<Option<Name>>,
    color: Color,
    busInfo: Option<BusFare>)

  /** Not-found answers (404), and the requests the handler cannot serve
      (an unknown mode or bus strategy). */
  datatype Failure = StartOrEndNotFound | NoPathFound | InvalidMode

  function NetworkFor(t: Tables, mode: TravelMode): Network {
    match mode
    case Walk => t.walk
    case Drive => t.drive
    case Bus => t.busQuick
  }

  function DirectDurationIn(edges: seq<Edge>, start: Code, end: Code): Option<nat> {
    match Lookup(edges, start, end)
    case Some(e) => Some(e.duration)
    case None => None
  }

  /** The network that serves a request and the mode it is drawn as. */
  function SelectNetwork(t: Tables, mode: string, busMode: string, start: Code, end: Code)
    : Result<(Network, TravelMode), Failure>
  {
    if mode == "walk" then Ok((t.walk, Walk))
    else if mode == "drive" then Ok((t.drive, Drive))
    else if mode == "bus" then
      if busMode == "economic" then Ok((t.busEconomic, Bus))
      else if busMode == "fewestTransfers" then Ok((t.busFewestTransfers, Bus))
      else if busMode == "fewestWalks" then Ok((t.busFewestWalks, Bus))
      else if busMode == "quick" then Ok((t.busQuick, Bus))
      else Err(InvalidMode)
    else if mode == "fast" then
      match FastMode(DirectDurationIn(t.walk.edges, start, end),
                     DirectDurationIn(t.drive.edges, start, end),
                     DirectDurationIn(t.busQuick.edges, start, end))
      case Some(m) => Ok((NetworkFor(t, m), m))
      case None => Err(NoPathFound)
    else Err(InvalidMode)
  }

  /** What a request is answered with. */
  function PlannedRoute(t: Tables, drift: Drift, req: Request): Result<Route, Failure> {
    var startCode := LastCodeNamed(t.attractions, req.start);
    var endCode := EndCodeNamed(t.attractions, req.start, req.end);
    if !IsSet(startCode) || !IsSet(endCode) then Err(StartOrEndNotFound)
    else
      var s, e := startCode.value, endCode.value;
      match SelectNetwork(t, req.mode, req.busMode, s, e)
      case Err(f) => Err(f)
      case Ok((net, m)) =>
        var mids := MidCodes(t.attractions, req.start, req.end, req.midpoints);
        var order := OptimalOrder(net.edges, s, mids, e);
        var totals := RouteTotals(net, drift, s, order);
        var fare := if req.mode == "bus" then FareOf(Lookup(net.edges, s, e)) else None;
        Ok(Route(totals.path,
                 totals.duration,
                 totals.distance,
                 [Some(req.start)] + NamesOf(t.attractions, order),
                 ColorOf(m),
                 fare))
  }

  /** The request handler. */
  method OptimalPath(t: Tables, drift: Drift, req: Request) returns (r: Result<Route, Failure>)
    ensures r == PlannedRoute(t, drift, req)
  {
    var startCode, endCode, midCodes := ResolveNames(t.attractions, req.start, req.end, req.midpoints);
    if !IsSet(startCode) || !IsSet(endCode) {
      return Err(StartOrEndNotFound);
    }
    var s, e := startCode.value, endCode.value;
    var net: Network;
    var colorMode: TravelMode;
    var busInfo: Option<BusFare> := None;
    if req.mode == "walk" {
      net, colorMode := t.walk, Walk;
    } else if req.mode == "drive" {
      net, colorMode := t.drive, Drive;
    } else if req.mode == "bus" {
      colorMode := Bus;
      if req.busMode == "economic" {
        net := t.busEconomic;
      } else if req.busMode == "fewestTransfers" {
        net := t.busFewestTransfers;
      } else if req.busMode == "fewestWalks" {
        net := t.busFewestWalks;
      } else if req.busMode == "quick" {
        net := t.busQuick;
      } else {
        return Err(InvalidMode);
      }
      busInfo := FindBusInfo(net.edges, s, e);
    } else if req.mode == "fast" {
      var wp := FindFastPath(t.walk.edges, s, e);
      var dp := FindFastPath(t.drive.edges, s, e);
      var bp := FindFastPath(t.busQuick.edges, s, e);
      assert wp == DirectDurationIn(t.walk.edges, s, e);
      assert dp == DirectDurationIn(t.drive.edges, s, e);
      assert bp == DirectDurationIn(t.busQuick.edges, s, e);
      var choice := FastMode(wp, dp, bp);
      if choice.None? {
        return Err(NoPathFound);
      }
      colorMode := choice.value;
      net := NetworkFor(t, colorMode);
    } else {
      return Err(InvalidMode);
    }
    assert SelectNetwork(t, req.mode, req.busMode, s, e) == Ok((net, colorMode));
    var bestPath := CalculateDistance(net.edges, s, midCodes, e);
    var names := WaypointNames(t.attractions, bestPath);
    OptimalOrderFeasible(net.edges, s, midCodes, e);
    var fullPath, totalDuration, totalDistance := AssembleRoute(net, drift, s, bestPath);
    assert names == NamesOf(t.attractions, bestPath);
    r := Ok(Route(fullPath, totalDuration, totalDistance, [Some(req.start)] + names, ColorOf(colorMode), busInfo));
  }

  // ---------------------------------------------------------------------
  // Properties of the answer

  /** A request whose start and end carry the same name is not found: the
      matching attraction is taken as the start only. */
  lemma SameNameIsNotFound(t: Tables, drift: Drift, req: Request)
    requires req.start == req.end
    ensures PlannedRoute(t, drift, req) == Err(StartOrEndNotFound)
  {
  }

  /** An answered route is no longer than any ordering of its stops that can
      be walked. */
  lemma PlannedRouteIsShortest(t: Tables, drift: Drift, req: Request, s: Code, e: Code,
                               net: Network, m: TravelMode, p: seq<Code>)
    requires LastCodeNamed(t.attractions, req.start) == Some(s) && s != ""
    requires EndCodeNamed(t.attractions, req.start, req.end) == Some(e) && e != ""
    requires SelectNetwork(t, req.mode, req.busMode, s, e) == Ok((net, m))
    requires multiset(p) == multiset(MidCodes(t.attractions, req.start, req.end, req.midpoints) + [e])
    requires PathCost(net.edges, s, p).Fin?
    ensures PlannedRoute(t, drift, req).Ok?
    ensures PlannedRoute(t, drift, req).value.distance <= PathCost(net.edges, s, p).n
  {
    var mids := MidCodes(t.attractions, req.start, req.end, req.midpoints);
    OptimalOrderEmptyIff(net.edges, s, mids, e);
    OptimalOrderIsOptimal(net.edges, s, mids, e, p);
    OptimalOrderFeasible(net.edges, s, mids, e);
    RouteTotalsAgree(net, drift, s, OptimalOrder(net.edges, s, mids, e));
  }

  /** When no ordering of the stops can be walked, the answer is still a
      route, with no path, zero distance and zero duration, and only the
      start as waypoint. */
  lemma UnreachableLooksEmpty(t: Tables, drift: Drift, req: Request, s: Code, e: Code, net: Network, m: TravelMode)
    requires LastCodeNamed(t.attractions, req.start) == Some(s) && s != ""
    requires EndCodeNamed(t.attractions, req.start, req.end) == Some(e) && e != ""
    requires SelectNetwork(t, req.mode, req.busMode, s, e) == Ok((net, m))
    requires forall p | multiset(p) == multiset(MidCodes(t.attractions, req.start, req.end, req.midpoints) + [e]) ::
      PathCost(net.edges, s, p) == Inf
    ensures PlannedRoute(t, drift, req).Ok?
    ensures var route := PlannedRoute(t, drift, req).value;
      route.path == [] && route.distance == 0 && route.duration == 0 && route.waypoints == [Some(req.start)]
  {
    var mids := MidCodes(t.attractions, req.start, req.end, req.midpoints);
    OptimalOrderEmptyIff(net.edges, s, mids, e);
  }
}
