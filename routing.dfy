/** What the program uses of OR-Tools' `RoutingIndexManager` and `RoutingModel`:
    the number of routing indices, the index <-> node mapping and each vehicle's
    start and end index. Their layout is the library's business; this model
    takes them as given functions constrained only by `ValidRouting`. The
    transit callback registered at OrToolsPoC.java:82-88 is the one piece of
    routing logic the program itself supplies. */
module Routing {
  import opened JavaArith
  import opened Data

  datatype RoutingLayout = RoutingLayout(
    indexCount: nat,
    indexToNode: int -> int,
    nodeToIndex: int -> int,
    start: int -> int,
    end: int -> int)

  /** Every routing index belongs to a node of the instance, and every non-depot
      node has an index that maps back to it. */
  predicate NodeIndices(d: ValidData, r: RoutingLayout)
  {
    && (forall idx :: 0 <= idx < r.indexCount ==> 0 <= r.indexToNode(idx) < d.SiteCount())
    && (forall i :: 1 <= i < d.SiteCount() ==>
          0 <= r.nodeToIndex(i) < r.indexCount && r.indexToNode(r.nodeToIndex(i)) == i)
  }

  /** Each vehicle's start and end index are routing indices of its start and end node. */
  predicate VehicleEnds(d: ValidData, r: RoutingLayout)
  {
    && (forall v :: 0 <= v < d.userCount ==>
          0 <= r.start(v) < r.indexCount && r.indexToNode(r.start(v)) == d.start[v])
    && (forall v :: 0 <= v < d.userCount ==>
          0 <= r.end(v) < r.indexCount && r.indexToNode(r.end(v)) == d.end[v])
  }

  /** What the program assumes of the library's index layout. */
  predicate ValidRouting(d: ValidData, r: RoutingLayout)
  {
    NodeIndices(d, r) && VehicleEnds(d, r)
  }

  predicate IsIndex(r: RoutingLayout, idx: int) { 0 <= idx < r.indexCount }

  /** The transit callback: the time from routing index `fromIndex` to `toIndex` is the
      dwell at the node being left plus the travel time between the two nodes, summed
      in `long`. */
  function Transit(d: ValidData, r: RoutingLayout, fromIndex: int, toIndex: int): int
    requires ValidRouting(d, r)
    requires IsIndex(r, fromIndex) && IsIndex(r, toIndex)
  {
    var u, v := r.indexToNode(fromIndex), r.indexToNode(toIndex);
    WrapLong(d.stayingTime[u] + d.distanceMatrix[u][v])
  }

  /** The transit charges the dwell of the node departed, never that of the node
      arrived at: any change to the dwell times that keeps the departed node's dwell
      leaves the transit unchanged. */
  lemma TransitIgnoresArrivalDwell(d: ValidData, r: RoutingLayout, fromIndex: int, toIndex: int, stay: seq<int>)
    requires ValidRouting(d, r)
    requires IsIndex(r, fromIndex) && IsIndex(r, toIndex)
    requires |stay| == |d.stayingTime| && (forall i :: 0 <= i < |stay| ==> IsLong(stay[i]))
    requires stay[r.indexToNode(fromIndex)] == d.stayingTime[r.indexToNode(fromIndex)]
    ensures WellFormed(d.(stayingTime := stay)) && ValidRouting(d.(stayingTime := stay), r)
    ensures Transit(d.(stayingTime := stay), r, fromIndex, toIndex) == Transit(d, r, fromIndex, toIndex)
  {
  }

  /** On data whose dwell and travel times are non-negative and at most half of
      `Long.MAX_VALUE`, the `long` sum never wraps: the transit is exactly the dwell
      of the departed node plus the travel time, and it is non-negative. */
  lemma TransitExact(d: ValidData, r: RoutingLayout, fromIndex: int, toIndex: int)
    requires ValidRouting(d, r)
    requires IsIndex(r, fromIndex) && IsIndex(r, toIndex)
    requires forall i :: 0 <= i < d.SiteCount() ==> 0 <= d.stayingTime[i] <= LONG_MAX / 2
    requires forall i, j :: 0 <= i < d.SiteCount() && 0 <= j < d.SiteCount() ==>
               0 <= d.distanceMatrix[i][j] <= LONG_MAX / 2
    ensures var u, v := r.indexToNode(fromIndex), r.indexToNode(toIndex);
            Transit(d, r, fromIndex, toIndex) == d.stayingTime[u] + d.distanceMatrix[u][v] >= 0
  {
  }

  /** On the built-in instance every transit is between 0 and 84 minutes (leaving
      "Obelisco": its dwell of 65 plus its longest trip, 19 to "Bombonera"), and leaving the depot
      costs nothing whatever the destination. */
  lemma ReferenceTransit(r: RoutingLayout, fromIndex: int, toIndex: int)
    requires ValidRouting(Reference(), r)
    requires IsIndex(r, fromIndex) && IsIndex(r, toIndex)
    ensures 0 <= Transit(Reference(), r, fromIndex, toIndex) <= 84
    ensures r.indexToNode(fromIndex) == 0 ==> Transit(Reference(), r, fromIndex, toIndex) == 0
  {
    ReferenceShape();
    var d := Reference();
    var u, v := r.indexToNode(fromIndex), r.indexToNode(toIndex);
    assert 0 <= u < 5 && 0 <= v < 5;
    assert forall i, j :: 0 <= i < 5 && 0 <= j < 5 ==> 0 <= d.stayingTime[i] + d.distanceMatrix[i][j] <= 84;
  }
}
