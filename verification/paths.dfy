/** Lookups over one mode's edge list, and the cost of walking an ordered list
    of stops along those edges. */
module Paths {
  import opened Records

  predicate Connects(e: Edge, start: Code, end: Code) {
    e.fromCode == start && e.toCode == end
  }

  /** The first edge, in list order, running from `start` to `end`. */
  function Lookup(edges: seq<Edge>, start: Code, end: Code): (r: Option<Edge>)
    ensures r.Some? ==> Connects(r.value, start, end)
  {
    if edges == [] then None
    else if Connects(edges[0], start, end) then Some(edges[0])
    else Lookup(edges[1..], start, end)
  }

  /** The lookup finds nothing exactly when no edge connects the pair, and
      otherwise finds the edge at the first connecting position. */
  lemma {:induction false} LookupIsFirstMatch(edges: seq<Edge>, start: Code, end: Code) returns (i: nat)
    ensures Lookup(edges, start, end).None? <==> forall j | 0 <= j < |edges| :: !Connects(edges[j], start, end)
    ensures Lookup(edges, start, end).Some? ==>
      && i < |edges|
      && edges[i] == Lookup(edges, start, end).value
      && forall j | 0 <= j < i :: !Connects(edges[j], start, end)
  {
    if edges == [] || Connects(edges[0], start, end) {
      i := 0;
    } else {
      var k := LookupIsFirstMatch(edges[1..], start, end);
      assert forall j | 1 <= j < |edges| :: edges[j] == edges[1..][j - 1];
      i := k + 1;
    }
  }

  function Info(e: Edge): PathInfo {
    PathInfo(e.fromName, e.toName, e.origin, e.destination, e.distance, e.duration)
  }

  /** The record of the first edge from `start` to `end`, if there is one. */
  method FindPath(edges: seq<Edge>, start: Code, end: Code) returns (r: Option<PathInfo>)
    ensures r.None? <==> Lookup(edges, start, end).None?
    ensures r.Some? ==> r.value == Info(Lookup(edges, start, end).value)
  {
    for i := 0 to |edges|
      invariant Lookup(edges[i..], start, end) == Lookup(edges, start, end)
    {
      if edges[i].fromCode == start && edges[i].toCode == end {
        return Some(Info(edges[i]));
      }
      assert edges[i..][1..] == edges[i + 1..];
    }
    return None;
  }

  /** The duration of the first edge from `start` to `end`, if there is one. */
  method FindFastPath(edges: seq<Edge>, start: Code, end: Code) returns (r: Option<nat>)
    ensures r.None? <==> Lookup(edges, start, end).None?
    ensures r.Some? ==> r.value == Lookup(edges, start, end).value.duration
  {
    for i := 0 to |edges|
      invariant Lookup(edges[i..], start, end) == Lookup(edges, start, end)
    {
      if edges[i].fromCode == start && edges[i].toCode == end {
        return Some(edges[i].duration);
      }
      assert edges[i..][1..] == edges[i + 1..];
    }
    return None;
  }

  /** A distance, or infinity for a hop without an edge. */
  datatype Dist = Fin(n: nat) | Inf

  /** Strictly less, with infinity above every number and not below itself. */
  predicate Less(a: Dist, b: Dist) {
    a.Fin? && (b.Inf? || a.n < b.n)
  }

  predicate AtMost(a: Dist, b: Dist) {
    b.Inf? || (a.Fin? && a.n <= b.n)
  }

  function Plus(a: Dist, b: Dist): Dist {
    if a.Fin? && b.Fin? then Fin(a.n + b.n) else Inf
  }

  /** The distance of the direct hop from `start` to `end`. */
  function HopDist(edges: seq<Edge>, start: Code, end: Code): Dist {
    match Lookup(edges, start, end)
    case Some(e) => Fin(e.distance)
    case None => Inf
  }

  /** Where the walk stands before hop `i`: the start, then each stop in turn. */
  function Pos(start: Code, order: seq<Code>, i: nat): Code
    requires i <= |order|
  {
    if i == 0 then start else order[i - 1]
  }

  /** The summed distance of walking `order` from `start`, or infinity when
      some hop has no edge. */
  function PathCost(edges: seq<Edge>, start: Code, order: seq<Code>): Dist
    decreases |order|
  {
    if order == [] then Fin(0)
    else
      var n := |order| - 1;
      Plus(PathCost(edges, start, order[..n]), HopDist(edges, Pos(start, order, n), order[n]))
  }

  /** Walking one more stop adds that hop's distance. */
  lemma PathCostStep(edges: seq<Edge>, start: Code, order: seq<Code>, i: nat)
    requires i < |order|
    ensures PathCost(edges, start, order[..i + 1])
         == Plus(PathCost(edges, start, order[..i]), HopDist(edges, Pos(start, order, i), order[i]))
  {
    var p := order[..i + 1];
    assert p[..i] == order[..i];
    assert Pos(start, p, i) == Pos(start, order, i);
  }

  /** The cost of the first `i` hops of a walk, counted by position. */
  function CostUpTo(edges: seq<Edge>, start: Code, order: seq<Code>, i: nat): Dist
    requires i <= |order|
  {
    if i == 0 then Fin(0)
    else Plus(CostUpTo(edges, start, order, i - 1), HopDist(edges, Pos(start, order, i - 1), order[i - 1]))
  }

  lemma {:induction false} CostUpToIsPrefixCost(edges: seq<Edge>, start: Code, order: seq<Code>, i: nat)
    requires i <= |order|
    ensures CostUpTo(edges, start, order, i) == PathCost(edges, start, order[..i])
  {
    if i > 0 {
      var j := i - 1;
      CostUpToIsPrefixCost(edges, start, order, j);
      PathCostStep(edges, start, order, j);
      assert j + 1 == i;
    }
  }

  /** Every hop among the first `j` of a walk whose cost so far is finite has
      an edge. */
  lemma {:induction false} CostUpToFeasible(edges: seq<Edge>, start: Code, order: seq<Code>, i: nat, j: nat)
    requires i < j <= |order|
    requires CostUpTo(edges, start, order, j).Fin?
    ensures Lookup(edges, Pos(start, order, i), order[i]).Some?
    decreases j - i
  {
    if j > i + 1 {
      CostUpToFeasible(edges, start, order, i, j - 1);
    }
  }

  /** With non-negative distances, a walk costs at least as much as any of its
      prefixes; a prefix that is already infinite stays infinite. */
  lemma {:induction false} PrefixCostAtMost(edges: seq<Edge>, start: Code, order: seq<Code>, i: nat)
    requires i <= |order|
    ensures AtMost(PathCost(edges, start, order[..i]), PathCost(edges, start, order))
    decreases |order| - i
  {
    if i == |order| {
      assert order[..i] == order;
    } else {
      PrefixCostAtMost(edges, start, order, i + 1);
      PathCostStep(edges, start, order, i);
    }
  }

  /** The duration of the direct hop from `start` to `end`; a hop without an
      edge contributes nothing (callers only walk feasible orders). */
  function HopDuration(edges: seq<Edge>, start: Code, end: Code): nat {
    match Lookup(edges, start, end)
    case Some(e) => e.duration
    case None => 0
  }

  /** The summed duration of the first `i` hops of a walk. */
  function DurationUpTo(edges: seq<Edge>, start: Code, order: seq<Code>, i: nat): nat
    requires i <= |order|
  {
    if i == 0 then 0
    else DurationUpTo(edges, start, order, i - 1) + HopDuration(edges, Pos(start, order, i - 1), order[i - 1])
  }

  /** The summed duration of walking `order` from `start`. */
  function TotalDuration(edges: seq<Edge>, start: Code, order: seq<Code>): nat {
    DurationUpTo(edges, start, order, |order|)
  }

  /** The raw points of the first trace between two endpoint keys, or none. */
  function TracePoints(traces: seq<Trace>, start: string, end: string): seq<(real, real)> {
    if traces == [] then []
    else if traces[0].origin == start && traces[0].destination == end then traces[0].points
    else TracePoints(traces[1..], start, end)
  }
}
