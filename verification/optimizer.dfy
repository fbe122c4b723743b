/** The waypoint-order optimiser: try every ordering of the required stops
    plus the end stop, walk each from the start, and keep the cheapest one;
    ties go to the ordering met first.  The search abandons an ordering as
    soon as its running total reaches the best total so far, and looks up
    each hop distance at most once per call through a memo table. */
module Optimizer {
  import opened Records
  import opened Paths
  import opened Orderings

  /** The best total so far and the ordering that achieved it. */
  datatype Best = Best(cost: Dist, order: seq<Code>)

  /** The search without pruning: visit the candidate orderings one after
      another and replace the best one only by a strictly cheaper one.  Both
      start from an infinite best total and an empty ordering. */
  function Unpruned(edges: seq<Edge>, start: Code, orders: seq<seq<Code>>): (r: Best)
    ensures r.cost.Inf? ==> r.order == []
    ensures r.cost.Fin? ==> r.order in orders && r.cost == PathCost(edges, start, r.order)
    decreases |orders|
  {
    if orders == [] then Best(Inf, [])
    else
      var n := |orders| - 1;
      var prev := Unpruned(edges, start, orders[..n]);
      var c := PathCost(edges, start, orders[n]);
      if Less(c, prev.cost) then Best(c, orders[n]) else prev
  }

  /** Considering one more candidate keeps it only when it is strictly cheaper. */
  lemma UnprunedStep(edges: seq<Edge>, start: Code, orders: seq<seq<Code>>, k: nat)
    requires k < |orders|
    ensures var prev := Unpruned(edges, start, orders[..k]);
      var c := PathCost(edges, start, orders[k]);
      Unpruned(edges, start, orders[..k + 1]) == if Less(c, prev.cost) then Best(c, orders[k]) else prev
  {
    assert orders[..k + 1][..k] == orders[..k];
  }

  /** The kept ordering costs no more than any candidate. */
  lemma {:induction false} UnprunedIsMinimal(edges: seq<Edge>, start: Code, orders: seq<seq<Code>>)
    ensures forall p | p in orders :: AtMost(Unpruned(edges, start, orders).cost, PathCost(edges, start, p))
    decreases |orders|
  {
    if orders != [] {
      var n := |orders| - 1;
      UnprunedIsMinimal(edges, start, orders[..n]);
      forall p | p in orders
        ensures AtMost(Unpruned(edges, start, orders).cost, PathCost(edges, start, p))
      {
        var k :| 0 <= k < |orders| && orders[k] == p;
        if k < n {
          assert orders[..n][k] == p;
        }
      }
    }
  }

  /** The kept ordering is the first candidate of minimal cost: every earlier
      candidate is strictly more expensive. */
  lemma {:induction false} UnprunedIsFirst(edges: seq<Edge>, start: Code, orders: seq<seq<Code>>) returns (i: nat)
    requires Unpruned(edges, start, orders).cost.Fin?
    ensures i < |orders| && orders[i] == Unpruned(edges, start, orders).order
    ensures forall j | 0 <= j < i :: Less(Unpruned(edges, start, orders).cost, PathCost(edges, start, orders[j]))
    decreases |orders|
  {
    var n := |orders| - 1;
    var prev := Unpruned(edges, start, orders[..n]);
    var c := PathCost(edges, start, orders[n]);
    if Less(c, prev.cost) {
      UnprunedIsMinimal(edges, start, orders[..n]);
      forall j | 0 <= j < n ensures Less(c, PathCost(edges, start, orders[j])) {
        assert orders[j] == orders[..n][j];
      }
      i := n;
    } else {
      i := UnprunedIsFirst(edges, start, orders[..n]);
      assert orders[..n][i] == orders[i];
      forall j | 0 <= j < i ensures orders[..n][j] == orders[j] { }
    }
  }

  /** With non-empty candidates, nothing is kept exactly when every candidate
      has a hop without an edge. */
  lemma UnprunedEmptyIff(edges: seq<Edge>, start: Code, orders: seq<seq<Code>>)
    requires forall p | p in orders :: p != []
    ensures Unpruned(edges, start, orders).order == []
        <==> forall p | p in orders :: PathCost(edges, start, p) == Inf
  {
    UnprunedIsMinimal(edges, start, orders);
  }

  /** The answer of the optimiser: the best ordering of the required stops
      followed by the end stop, the start excluded; empty when none works. */
  function OptimalOrder(edges: seq<Edge>, start: Code, mids: seq<Code>, end: Code): seq<Code> {
    Unpruned(edges, start, Permutations(mids + [end])).order
  }

  lemma CandidatesNonEmpty(mids: seq<Code>, end: Code)
    ensures forall p | p in Permutations(mids + [end]) :: p != []
  {
    PermutationsSound(mids + [end]);
    forall p | p in Permutations(mids + [end]) ensures p != [] {
      assert |p| == |multiset(p)| == |multiset(mids + [end])| == |mids| + 1;
    }
  }

  /** A non-empty answer visits every required stop and the end exactly as
      often as they were requested, and has a finite cost. */
  lemma OptimalOrderIsPermutation(edges: seq<Edge>, start: Code, mids: seq<Code>, end: Code)
    ensures var r := OptimalOrder(edges, start, mids, end);
      r != [] ==> multiset(r) == multiset(mids + [end]) && PathCost(edges, start, r).Fin?
  {
    PermutationsSound(mids + [end]);
  }

  /** The answer is empty exactly when every ordering of the stops has a hop
      without an edge. */
  lemma OptimalOrderEmptyIff(edges: seq<Edge>, start: Code, mids: seq<Code>, end: Code)
    ensures OptimalOrder(edges, start, mids, end) == []
        <==> forall p | multiset(p) == multiset(mids + [end]) :: PathCost(edges, start, p) == Inf
  {
    var candidates := mids + [end];
    CandidatesNonEmpty(mids, end);
    UnprunedEmptyIff(edges, start, Permutations(candidates));
    PermutationsSound(candidates);
    forall p | multiset(p) == multiset(candidates) ensures p in Permutations(candidates) {
      PermutationsComplete(candidates, p);
    }
  }

  /** A non-empty answer costs no more than any ordering of the stops. */
  lemma OptimalOrderIsOptimal(edges: seq<Edge>, start: Code, mids: seq<Code>, end: Code, p: seq<Code>)
    requires multiset(p) == multiset(mids + [end])
    requires OptimalOrder(edges, start, mids, end) != []
    ensures AtMost(PathCost(edges, start, OptimalOrder(edges, start, mids, end)), PathCost(edges, start, p))
  {
    var candidates := mids + [end];
    PermutationsComplete(candidates, p);
    UnprunedIsMinimal(edges, start, Permutations(candidates));
  }

  /** Ties go to the first cheapest ordering in generation order: the answer
      stands at a position before which every ordering is strictly dearer. */
  lemma OptimalOrderTieRule(edges: seq<Edge>, start: Code, mids: seq<Code>, end: Code) returns (i: nat)
    ensures var orders := Permutations(mids + [end]);
      var r := OptimalOrder(edges, start, mids, end);
      r != [] ==>
        && i < |orders|
        && orders[i] == r
        && forall j | 0 <= j < i :: Less(PathCost(edges, start, r), PathCost(edges, start, orders[j]))
  {
    var orders := Permutations(mids + [end]);
    var best := Unpruned(edges, start, orders);
    i := 0;
    if best.order != [] {
      i := UnprunedIsFirst(edges, start, orders);
    }
  }

  /** Walking the answer from the start never meets a missing edge. */
  lemma OptimalOrderFeasible(edges: seq<Edge>, start: Code, mids: seq<Code>, end: Code)
    ensures PathCost(edges, start, OptimalOrder(edges, start, mids, end)).Fin?
  {
    OptimalOrderIsPermutation(edges, start, mids, end);
  }

  /** A memo table is sound when every entry is the fresh hop distance. */
  predicate CacheValid(edges: seq<Edge>, cache: map<(Code, Code), Dist>) {
    forall key | key in cache :: cache[key] == HopDist(edges, key.0, key.1)
  }

  /** The memoised hop distance: answer from the table, or look the hop up
      and record it.  The table only grows and stays sound. */
  method GetPathDistance(edges: seq<Edge>, cache: map<(Code, Code), Dist>, start: Code, end: Code)
    returns (distance: Dist, updated: map<(Code, Code), Dist>)
    requires CacheValid(edges, cache)
    ensures distance == HopDist(edges, start, end)
    ensures CacheValid(edges, updated)
    ensures updated.Keys == cache.Keys + {(start, end)}
    ensures forall key | key in cache :: updated[key] == cache[key]
  {
    if (start, end) in cache {
      return cache[(start, end)], cache;
    }
    var path := FindPath(edges, start, end);
    distance := if path.Some? then Fin(path.value.distance) else Inf;
    updated := cache[(start, end) := distance];
  }

  /** A walk whose first hops already reach the bound cannot end below it. */
  lemma PruneStep(edges: seq<Edge>, start: Code, order: seq<Code>, i: nat, total: Dist, bound: Dist)
    requires i <= |order|
    requires CostUpTo(edges, start, order, i) == total && total.Fin? && bound.Fin? && total.n >= bound.n
    ensures !Less(total, bound) && !Less(PathCost(edges, start, order), bound)
  {
    CostUpToIsPrefixCost(edges, start, order, i);
    PrefixCostAtMost(edges, start, order, i);
  }

  /** A missing hop makes the whole walk infinite. */
  lemma InfeasibleStep(edges: seq<Edge>, start: Code, order: seq<Code>, i: nat, bound: Dist)
    requires i < |order|
    requires HopDist(edges, Pos(start, order, i), order[i]) == Inf
    ensures !Less(Inf, bound) && !Less(PathCost(edges, start, order), bound)
  {
    PathCostStep(edges, start, order, i);
    PrefixCostAtMost(edges, start, order, i + 1);
  }

  /** Appending the next stop extends the walked path by one. */
  lemma ExtendWalk(start: Code, order: seq<Code>, i: nat, path: seq<Code>)
    requires i < |order| && path == [start] + order[..i]
    ensures path + [order[i]] == [start] + order[..i + 1]
  {
    assert order[..i + 1] == order[..i] + [order[i]];
  }

  /** A walk completed without pruning costs what it summed. */
  lemma CompletedWalk(edges: seq<Edge>, start: Code, order: seq<Code>, total: Dist)
    requires CostUpTo(edges, start, order, |order|) == total
    ensures PathCost(edges, start, order) == total
  {
    CostUpToIsPrefixCost(edges, start, order, |order|);
    assert order[..|order|] == order;
  }

  /** One candidate ordering walked from the start against the best total so
      far: abandoned at a missing edge (total infinite) or as soon as the
      running total reaches that best total.  The total it returns is below
      the best exactly when the ordering's full cost is, and in that case it
      is the full cost and the path is the whole walk. */
  method WalkCandidate(edges: seq<Edge>, cache: map<(Code, Code), Dist>, startCode: Code,
                       midOrder: seq<Code>, minDistance: Dist)
    returns (totalDistance: Dist, fullPath: seq<Code>, updated: map<(Code, Code), Dist>)
    requires CacheValid(edges, cache)
    ensures CacheValid(edges, updated)
    ensures Less(totalDistance, minDistance) <==> Less(PathCost(edges, startCode, midOrder), minDistance)
    ensures Less(totalDistance, minDistance) ==>
      totalDistance == PathCost(edges, startCode, midOrder) && fullPath == [startCode] + midOrder
  {
    updated := cache;
    var currentLocation := startCode;
    totalDistance := Fin(0);
    fullPath := [startCode];
    for i := 0 to |midOrder|
      invariant CacheValid(edges, updated)
      invariant totalDistance.Fin? && CostUpTo(edges, startCode, midOrder, i) == totalDistance
      invariant fullPath == [startCode] + midOrder[..i]
      invariant currentLocation == Pos(startCode, midOrder, i)
    {
      var distance;
      distance, updated := GetPathDistance(edges, updated, currentLocation, midOrder[i]);
      if distance == Inf {
        InfeasibleStep(edges, startCode, midOrder, i, minDistance);
        totalDistance := Inf;
        return;
      }
      totalDistance := Fin(totalDistance.n + distance.n);
      ExtendWalk(startCode, midOrder, i, fullPath);
      fullPath := fullPath + [midOrder[i]];
      currentLocation := midOrder[i];
      if minDistance.Fin? && totalDistance.n >= minDistance.n {
        PruneStep(edges, startCode, midOrder, i + 1, totalDistance, minDistance);
        return;
      }
    }
    CompletedWalk(edges, startCode, midOrder, totalDistance);
    assert midOrder[..|midOrder|] == midOrder;
  }

  /** The pruned search; it returns exactly what the unpruned search does. */
  method CalculateDistance(edges: seq<Edge>, startCode: Code, midCodes: seq<Code>, endCode: Code)
    returns (bestOrder: seq<Code>)
    ensures bestOrder == OptimalOrder(edges, startCode, midCodes, endCode)
  {
    var candidates := midCodes + [endCode];
    var orders := Permutations(candidates);
    var minDistance := Inf;
    var bestPath: seq<Code> := [];
    var pathCache: map<(Code, Code), Dist> := map[];
    for k := 0 to |orders|
      invariant CacheValid(edges, pathCache)
      invariant minDistance == Unpruned(edges, startCode, orders[..k]).cost
      invariant bestPath == if minDistance.Inf? then [] else [startCode] + Unpruned(edges, startCode, orders[..k]).order
    {
      UnprunedStep(edges, startCode, orders, k);
      var totalDistance, fullPath;
      totalDistance, fullPath, pathCache := WalkCandidate(edges, pathCache, startCode, orders[k], minDistance);
      if Less(totalDistance, minDistance) {
        minDistance := totalDistance;
        bestPath := fullPath;
      }
    }
    assert orders[..|orders|] == orders;
    bestOrder := if |bestPath| == 0 then [] else bestPath[1..];
  }

  lemma SingletonPermutations(x: Code)
    ensures Permutations([x]) == [[x]]
  {
    assert RemoveAt([x], 0) == [];
    assert PermutationsFrom([x], 1) == [];
    assert Permutations<Code>([]) == [[]];
    assert [x] + [] == [x];
    assert Prepend(x, [[]]) == [[x]];
  }

  /** A small network where going through the intermediate stop beats the
      direct hop: A to B is 100 m / 60 s, B to C 200 m / 120 s, A to C
      400 m / 300 s, and nothing runs from C back to B. */
  function ScenarioEdges(): seq<Edge> {
    [ Edge("A", "A", "B", "B", Point(0.0, 0.0), Point(0.0, 0.0), 100, 60, None),
      Edge("B", "B", "C", "C", Point(0.0, 0.0), Point(0.0, 0.0), 200, 120, None),
      Edge("A", "A", "C", "C", Point(0.0, 0.0), Point(0.0, 0.0), 400, 300, None) ]
  }

  lemma ScenarioOrders()
    ensures Permutations(["B"] + ["C"]) == [["B", "C"], ["C", "B"]]
  {
    var xs: seq<Code> := ["B", "C"];
    assert ["B"] + ["C"] == xs;
    assert RemoveAt(xs, 0) == ["C"];
    assert RemoveAt(xs, 1) == ["B"];
    SingletonPermutations("B");
    SingletonPermutations("C");
    assert PermutationsFrom(xs, 2) == [];
    var cb := Prepend("C", [["B"]]);
    assert |cb| == 1 && cb[0] == ["C", "B"];
    assert cb == [["C", "B"]];
    var bc := Prepend("B", [["C"]]);
    assert |bc| == 1 && bc[0] == ["B", "C"];
    assert bc == [["B", "C"]];
    assert PermutationsFrom(xs, 1) == [["C", "B"]];
  }

  lemma ScenarioLookups()
    ensures var edges := ScenarioEdges();
      && Lookup(edges, "A", "B") == Some(edges[0])
      && Lookup(edges, "B", "C") == Some(edges[1])
      && Lookup(edges, "C", "B") == None
      && Lookup(edges, "A", "C") == Some(edges[2])
  {
    var edges := ScenarioEdges();
    var ab, bc, ac := edges[0], edges[1], edges[2];
    assert edges[1..] == [bc, ac] && edges[1..][1..] == [ac] && edges[1..][1..][1..] == [];
    assert !Connects(ab, "C", "B") && !Connects(bc, "C", "B") && !Connects(ac, "C", "B");
    assert Lookup([ac], "C", "B") == Lookup([], "C", "B") == None;
    assert Lookup(edges, "C", "B") == Lookup([bc, ac], "C", "B") == None;
    assert Connects(ac, "A", "C") && !Connects(ab, "A", "C") && !Connects(bc, "A", "C");
    assert Lookup(edges, "A", "C") == Lookup([bc, ac], "A", "C") == Lookup([ac], "A", "C") == Some(ac);
  }

  lemma ScenarioCosts()
    ensures PathCost(ScenarioEdges(), "A", ["B", "C"]) == Fin(300)
    ensures TotalDuration(ScenarioEdges(), "A", ["B", "C"]) == 180
    ensures PathCost(ScenarioEdges(), "A", ["C", "B"]) == Inf
  {
    ScenarioLookups();
    var p1: seq<Code> := ["B", "C"];
    var p2: seq<Code> := ["C", "B"];
    assert p1[..1] == ["B"] && p1[..1][..0] == [];
    assert p2[..1] == ["C"] && p2[..1][..0] == [];
  }

  /** On that network the optimiser picks [B, C], 300 m and 180 s, over the
      direct 400 m hop. */
  lemma ThroughStopBeatsDirect()
    ensures OptimalOrder(ScenarioEdges(), "A", ["B"], "C") == ["B", "C"]
    ensures PathCost(ScenarioEdges(), "A", ["B", "C"]) == Fin(300)
    ensures TotalDuration(ScenarioEdges(), "A", ["B", "C"]) == 180
  {
    ScenarioOrders();
    ScenarioCosts();
    var p1: seq<Code> := ["B", "C"];
    var p2: seq<Code> := ["C", "B"];
    var edges := ScenarioEdges();
    assert [p1, p2][..1] == [p1] && [p1][..0] == [];
    assert Unpruned(edges, "A", [p1]) == Best(Fin(300), p1);
    assert Unpruned(edges, "A", [p1, p2]) == Best(Fin(300), p1);
  }
}
