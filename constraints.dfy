/** The constraint set-up in `main` (OrToolsPoC.java:92-117): a fresh "TotalTime"
    dimension, then a site-window loop over `range(0, siteCount).skip(1)` and a
    vehicle-window loop over `range(0, userCount)`. Each loop is a method that
    tightens the dimension in place and is proved to leave exactly the table that
    the corresponding list of updates specifies; what that table contains is
    proved about the lists. */
module Constraints {
  import opened JavaArith
  import opened Streams
  import opened Data
  import opened Routing
  import opened Dimension

  /** The nodes `ns` are non-depot sites. */
  predicate AreSites(d: ValidData, ns: seq<int>)
  {
    forall k :: 0 <= k < |ns| ==> 1 <= ns[k] < d.SiteCount()
  }

  /** The nodes the site loop visits: `range(0, siteCount).skip(1)`. */
  function SiteNodes(d: ValidData): (ns: seq<int>)
    ensures AreSites(d, ns)
  {
    RangeFromZero(d.SiteCount());
    Skip(Range(0, d.SiteCount()), 1)
  }

  /** The site loop visits the nodes 1 .. siteCount-1 in order; the depot, node 0,
      is skipped. */
  lemma SiteNodesAre(d: ValidData)
    ensures SiteNodes(d) == seq(if d.SiteCount() == 0 then 0 else d.SiteCount() - 1, k => k + 1)
  {
    RangeFromZero(d.SiteCount());
  }

  /** Visit k of the site loop is node k+1. */
  lemma SiteNodeAt(d: ValidData, k: int)
    requires 0 <= k < d.SiteCount() - 1
    ensures |SiteNodes(d)| == d.SiteCount() - 1 && SiteNodes(d)[k] == k + 1
  {
    SkipOneRangeAt(d.SiteCount(), k);
  }

  /** The call `cumulVar(nodeToIndex(i)).setRange(open_i, close_i - stay_i)`; the
      subtraction is done in `long`. */
  function SiteUpdate(d: ValidData, r: RoutingLayout, i: int): BoundUpdate
    requires 1 <= i < d.SiteCount()
  {
    RangeUpdate(r.nodeToIndex(i), d.sitesTimeWindows[i][0],
                WrapLong(d.sitesTimeWindows[i][1] - d.stayingTime[i]))
  }

  /** The updates the site loop issues for the nodes `ns`, one per node, in order;
      on a valid layout each names a routing index. */
  function SiteUpdatesFor(d: ValidData, r: RoutingLayout, ns: seq<int>): (us: seq<BoundUpdate>)
    requires AreSites(d, ns)
    ensures |us| == |ns|
  {
    if ns == [] then []
    else SiteUpdatesFor(d, r, ns[..|ns| - 1]) + [SiteUpdate(d, r, ns[|ns| - 1])]
  }

  /** Update k is node ns[k]'s window. */
  lemma {:induction false} SiteUpdatesForAt(d: ValidData, r: RoutingLayout, ns: seq<int>, k: int)
    requires AreSites(d, ns) && 0 <= k < |ns|
    ensures SiteUpdatesFor(d, r, ns)[k] == SiteUpdate(d, r, ns[k])
  {
    if k < |ns| - 1 {
      SiteUpdatesForAt(d, r, ns[..|ns| - 1], k);
    }
  }

  /** On a valid layout every update of the site loop names a routing index. */
  lemma {:induction false} SiteUpdatesForTargets(d: ValidData, r: RoutingLayout, ns: seq<int>)
    requires NodeIndices(d, r) && AreSites(d, ns)
    ensures TargetsWithin(SiteUpdatesFor(d, r, ns), r.indexCount)
  {
    if ns != [] {
      SiteUpdatesForTargets(d, r, ns[..|ns| - 1]);
    }
  }

  /** The updates of the whole site loop. */
  function SiteUpdates(d: ValidData, r: RoutingLayout): (us: seq<BoundUpdate>)
    requires NodeIndices(d, r)
    ensures TargetsWithin(us, r.indexCount)
  {
    SiteUpdatesForTargets(d, r, SiteNodes(d));
    SiteUpdatesFor(d, r, SiteNodes(d))
  }

  /** Update k of the site loop is the window of node k+1, on a routing index of
      node k+1 (so never an index of the depot). */
  lemma SiteUpdateAt(d: ValidData, r: RoutingLayout, k: int)
    requires NodeIndices(d, r) && 0 <= k < |SiteUpdates(d, r)|
    ensures |SiteUpdates(d, r)| == d.SiteCount() - 1
    ensures SiteUpdates(d, r)[k] == SiteUpdate(d, r, k + 1)
    ensures r.indexToNode(SiteUpdates(d, r)[k].index) == k + 1
  {
    SiteNodeAt(d, k);
    SiteUpdatesForAt(d, r, SiteNodes(d), k);
  }

  /** The two calls the vehicle loop makes for vehicle `v`:
      `cumulVar(start(v)).setMin(userTimeWindow[v][0])` then
      `cumulVar(end(v)).setMax(userTimeWindow[v][1])`. */
  function VehicleUpdatesOf(d: ValidData, r: RoutingLayout, v: int): seq<BoundUpdate>
    requires 0 <= v < d.userCount
  {
    [MinUpdate(r.start(v), d.userTimeWindow[v][0]), MaxUpdate(r.end(v), d.userTimeWindow[v][1])]
  }

  predicate AreVehicles(d: ValidData, vs: seq<int>)
  {
    forall k :: 0 <= k < |vs| ==> 0 <= vs[k] < d.userCount
  }

  /** The updates the vehicle loop issues for the vehicles `vs`, in order. */
  function VehicleUpdatesFor(d: ValidData, r: RoutingLayout, vs: seq<int>): (us: seq<BoundUpdate>)
    requires AreVehicles(d, vs)
    ensures |us| == 2 * |vs|
  {
    if vs == [] then []
    else VehicleUpdatesFor(d, r, vs[..|vs| - 1]) + VehicleUpdatesOf(d, r, vs[|vs| - 1])
  }

  /** Position 2j is vehicle vs[j]'s `setMin` on its start index, position 2j+1 its
      `setMax` on its end index; nothing else is issued. */
  lemma {:induction false} VehicleUpdatesForAt(d: ValidData, r: RoutingLayout, vs: seq<int>, j: int)
    requires AreVehicles(d, vs) && 0 <= j < |vs|
    ensures |VehicleUpdatesFor(d, r, vs)| == 2 * |vs|
    ensures VehicleUpdatesFor(d, r, vs)[2 * j] == MinUpdate(r.start(vs[j]), d.userTimeWindow[vs[j]][0])
    ensures VehicleUpdatesFor(d, r, vs)[2 * j + 1] == MaxUpdate(r.end(vs[j]), d.userTimeWindow[vs[j]][1])
  {
    var front := vs[..|vs| - 1];
    if j < |vs| - 1 {
      VehicleUpdatesForAt(d, r, front, j);
    } else if front != [] {
      VehicleUpdatesForAt(d, r, front, 0);
    }
  }

  /** The vehicles the vehicle loop visits: `range(0, userCount)`. */
  function Vehicles(d: ValidData): (vs: seq<int>)
    ensures AreVehicles(d, vs) && |vs| == d.userCount
  {
    RangeFromZero(d.userCount);
    Range(0, d.userCount)
  }

  /** Every update of the vehicle loop names a routing index. */
  lemma {:induction false} VehicleUpdatesForTargets(d: ValidData, r: RoutingLayout, vs: seq<int>)
    requires ValidRouting(d, r) && AreVehicles(d, vs)
    ensures TargetsWithin(VehicleUpdatesFor(d, r, vs), r.indexCount)
  {
    if vs != [] {
      VehicleUpdatesForTargets(d, r, vs[..|vs| - 1]);
    }
  }

  function VehicleUpdates(d: ValidData, r: RoutingLayout): (us: seq<BoundUpdate>)
    requires ValidRouting(d, r)
    ensures TargetsWithin(us, r.indexCount)
  {
    VehicleUpdatesForTargets(d, r, Vehicles(d));
    VehicleUpdatesFor(d, r, Vehicles(d))
  }

  /** The vehicle loop issues, for each vehicle v in turn, a `setMin` of its start
      cumul to the window's opening and a `setMax` of its end cumul to its closing. */
  lemma VehicleUpdatesAt(d: ValidData, r: RoutingLayout, v: int)
    requires ValidRouting(d, r) && 0 <= v < d.userCount
    ensures |VehicleUpdates(d, r)| == 2 * d.userCount
    ensures VehicleUpdates(d, r)[2 * v] == MinUpdate(r.start(v), d.userTimeWindow[v][0])
    ensures VehicleUpdates(d, r)[2 * v + 1] == MaxUpdate(r.end(v), d.userTimeWindow[v][1])
  {
    RangeFromZero(d.userCount);
    VehicleUpdatesForAt(d, r, Vehicles(d), v);
  }

  /** An index that is no vehicle's start or end is named by no update of the
      vehicle loop. */
  lemma VehicleUpdatesAvoid(d: ValidData, r: RoutingLayout, idx: int)
    requires ValidRouting(d, r)
    requires forall v :: 0 <= v < d.userCount ==> r.start(v) != idx && r.end(v) != idx
    ensures forall k :: 0 <= k < |VehicleUpdates(d, r)| ==> VehicleUpdates(d, r)[k].index != idx
  {
    var vu := VehicleUpdates(d, r);
    forall k | 0 <= k < |vu| ensures vu[k].index != idx {
      VehicleUpdatesAt(d, r, k / 2);
    }
  }

  /** The vehicle loop's table after one more vehicle: its two updates applied in turn. */
  lemma VehicleStep(d: ValidData, r: RoutingLayout, t: seq<Bounds>, vs: seq<int>, v: int)
    requires ValidRouting(d, r) && |t| == r.indexCount
    requires AreVehicles(d, vs + [v])
    ensures AreVehicles(d, vs) && 0 <= v < d.userCount
    ensures 0 <= r.start(v) < |t| && 0 <= r.end(v) < |t|
    ensures TargetsWithin(VehicleUpdatesFor(d, r, vs), |t|)
    ensures TargetsWithin(VehicleUpdatesFor(d, r, vs + [v]), |t|)
    ensures ApplyAll(t, VehicleUpdatesFor(d, r, vs + [v]))
            == Apply(Apply(ApplyAll(t, VehicleUpdatesFor(d, r, vs)), VehicleUpdatesOf(d, r, v)[0]),
                     VehicleUpdatesOf(d, r, v)[1])
  {
    assert forall k :: 0 <= k < |vs| ==> vs[k] == (vs + [v])[k];
    assert (vs + [v])[..|vs|] == vs;
    assert (vs + [v])[|vs|] == v;
    VehicleUpdatesForTargets(d, r, vs);
    VehicleUpdatesForTargets(d, r, vs + [v]);
    var done := VehicleUpdatesFor(d, r, vs);
    var a, b := VehicleUpdatesOf(d, r, v)[0], VehicleUpdatesOf(d, r, v)[1];
    assert VehicleUpdatesFor(d, r, vs + [v]) == (done + [a]) + [b];
    ApplyAllSnoc(t, done + [a], b);
    ApplyAllSnoc(t, done, a);
  }

  /** The dimension's domains once `main` has set all windows. */
  function DerivedBounds(d: ValidData, r: RoutingLayout): seq<Bounds>
    requires ValidRouting(d, r)
  {
    ApplyAll(ApplyAll(Unconstrained(r.indexCount, LONG_MAX), SiteUpdates(d, r)), VehicleUpdates(d, r))
  }

  /** One more node adds its window to the end of the site loop's updates. */
  lemma SiteUpdatesForSnoc(d: ValidData, r: RoutingLayout, ns: seq<int>, i: int)
    requires AreSites(d, ns + [i])
    ensures AreSites(d, ns) && 1 <= i < d.SiteCount()
    ensures SiteUpdatesFor(d, r, ns + [i]) == SiteUpdatesFor(d, r, ns) + [SiteUpdate(d, r, i)]
  {
    assert (ns + [i])[..|ns|] == ns;
    assert (ns + [i])[|ns|] == i;
  }

  /** The site loop's table after one more node: that node's window applied. */
  lemma SiteStep(d: ValidData, r: RoutingLayout, t: seq<Bounds>, ns: seq<int>, i: int)
    requires NodeIndices(d, r) && |t| == r.indexCount
    requires AreSites(d, ns + [i])
    ensures AreSites(d, ns) && 1 <= i < d.SiteCount()
    ensures 0 <= r.nodeToIndex(i) < |t|
    ensures TargetsWithin(SiteUpdatesFor(d, r, ns), |t|)
    ensures TargetsWithin(SiteUpdatesFor(d, r, ns + [i]), |t|)
    ensures ApplyAll(t, SiteUpdatesFor(d, r, ns + [i])) == Apply(ApplyAll(t, SiteUpdatesFor(d, r, ns)), SiteUpdate(d, r, i))
    ensures SiteUpdate(d, r, i) == RangeUpdate(r.nodeToIndex(i), d.sitesTimeWindows[i][0],
                                               WrapLong(d.sitesTimeWindows[i][1] - d.stayingTime[i]))
  {
    SiteUpdatesForSnoc(d, r, ns, i);
    SiteUpdatesForTargets(d, r, ns + [i]);
    ApplyAllSnoc(t, SiteUpdatesFor(d, r, ns), SiteUpdate(d, r, i));
  }

  /** The site-window loop (OrToolsPoC.java:100-107). */
  method ConstrainSites(d: ValidData, r: RoutingLayout, dim: TotalTimeDimension)
    requires NodeIndices(d, r)
    requires |dim.cumul| == r.indexCount
    modifies dim
    ensures dim.cumul == ApplyAll(old(dim.cumul), SiteUpdates(d, r))
  {
    var nodes := SiteNodes(d);
    var k := 0;
    while k < |nodes|
      invariant 0 <= k <= |nodes|
      invariant TargetsWithin(SiteUpdatesFor(d, r, nodes[..k]), r.indexCount)
      invariant dim.cumul == ApplyAll(old(dim.cumul), SiteUpdatesFor(d, r, nodes[..k]))
    {
      var i := nodes[k];
      PrefixStep(nodes, k);
      SiteStep(d, r, old(dim.cumul), nodes[..k], i);
      dim.SetRange(r.nodeToIndex(i), d.sitesTimeWindows[i][0],
                   WrapLong(d.sitesTimeWindows[i][1] - d.stayingTime[i]));
      k := k + 1;
    }
    assert nodes[..|nodes|] == nodes;
  }

  /** The vehicle-window loop (OrToolsPoC.java:109-117). */
  method ConstrainVehicles(d: ValidData, r: RoutingLayout, dim: TotalTimeDimension)
    requires ValidRouting(d, r)
    requires |dim.cumul| == r.indexCount
    modifies dim
    ensures dim.cumul == ApplyAll(old(dim.cumul), VehicleUpdates(d, r))
  {
    var users := Vehicles(d);
    var k := 0;
    while k < |users|
      invariant 0 <= k <= |users|
      invariant TargetsWithin(VehicleUpdatesFor(d, r, users[..k]), r.indexCount)
      invariant dim.cumul == ApplyAll(old(dim.cumul), VehicleUpdatesFor(d, r, users[..k]))
    {
      var v := users[k];
      PrefixStep(users, k);
      VehicleStep(d, r, old(dim.cumul), users[..k], v);
      assert VehicleUpdatesOf(d, r, v) == [MinUpdate(r.start(v), d.userTimeWindow[v][0]),
                                           MaxUpdate(r.end(v), d.userTimeWindow[v][1])];
      dim.SetMin(r.start(v), d.userTimeWindow[v][0]);
      dim.SetMax(r.end(v), d.userTimeWindow[v][1]);
      k := k + 1;
    }
    assert users[..|users|] == users;
  }

  /** Everything `main` does to the dimension before solving (OrToolsPoC.java:92-117):
      the resulting domains are exactly `DerivedBounds`. */
  method BuildDimension(d: ValidData, r: RoutingLayout) returns (dim: TotalTimeDimension)
    requires ValidRouting(d, r)
    ensures dim.cumul == DerivedBounds(d, r)
  {
    dim := new TotalTimeDimension(r.indexCount, LONG_MAX);
    ConstrainSites(d, r, dim);
    ConstrainVehicles(d, r, dim);
  }

  /** Every non-depot node's cumul lies within its arrival window
      `[open, close - stay]`, and only ever tightens from `[0, Long.MAX_VALUE]`. */
  lemma DerivedSiteWindow(d: ValidData, r: RoutingLayout, i: int)
    requires ValidRouting(d, r) && 1 <= i < d.SiteCount()
    ensures var b := DerivedBounds(d, r)[r.nodeToIndex(i)];
            && d.sitesTimeWindows[i][0] <= b.min
            && b.max <= WrapLong(d.sitesTimeWindows[i][1] - d.stayingTime[i])
            && 0 <= b.min && b.max <= LONG_MAX
  {
    SiteStageAt(d, r, i);
    ApplyAllNarrows(ApplyAll(Unconstrained(r.indexCount, LONG_MAX), SiteUpdates(d, r)),
                    VehicleUpdates(d, r), r.nodeToIndex(i));
  }

  /** No two updates of the site loop name the same routing index. */
  lemma SiteUpdatesDistinct(d: ValidData, r: RoutingLayout, k: int)
    requires NodeIndices(d, r) && 0 <= k < |SiteUpdates(d, r)|
    ensures forall j :: 0 <= j < |SiteUpdates(d, r)| && j != k ==>
              SiteUpdates(d, r)[j].index != SiteUpdates(d, r)[k].index
  {
    var su := SiteUpdates(d, r);
    SiteUpdateAt(d, r, k);
    forall j | 0 <= j < |su| && j != k ensures su[j].index != su[k].index {
      SiteUpdateAt(d, r, j);
    }
  }

  /** After the site loop, site i's cumul is its window intersected with the
      unconstrained domain. */
  lemma SiteStageAt(d: ValidData, r: RoutingLayout, i: int)
    requires ValidRouting(d, r) && 1 <= i < d.SiteCount()
    ensures ApplyAll(Unconstrained(r.indexCount, LONG_MAX), SiteUpdates(d, r))[r.nodeToIndex(i)]
            == Tighten(Bounds(0, LONG_MAX), SiteUpdate(d, r, i))
  {
    SiteNodeAt(d, i - 1);
    SiteUpdateAt(d, r, i - 1);
    SiteUpdatesDistinct(d, r, i - 1);
    ApplyAllSingle(Unconstrained(r.indexCount, LONG_MAX), SiteUpdates(d, r), i - 1);
  }

  /** When no vehicle starts or ends at site i, its cumul's domain is exactly its
      window intersected with `[0, Long.MAX_VALUE]`. */
  lemma DerivedSiteWindowExact(d: ValidData, r: RoutingLayout, i: int)
    requires ValidRouting(d, r) && 1 <= i < d.SiteCount()
    requires forall v :: 0 <= v < d.userCount ==> d.start[v] != i && d.end[v] != i
    ensures DerivedBounds(d, r)[r.nodeToIndex(i)] == Tighten(Bounds(0, LONG_MAX), SiteUpdate(d, r, i))
  {
    SiteStageAt(d, r, i);
    VehicleUpdatesAvoid(d, r, r.nodeToIndex(i));
    ApplyAllFrame(ApplyAll(Unconstrained(r.indexCount, LONG_MAX), SiteUpdates(d, r)),
                  VehicleUpdates(d, r), r.nodeToIndex(i));
  }

  /** Each vehicle's start cumul opens no earlier than its window and its end cumul
      closes no later than its window. */
  lemma DerivedVehicleWindow(d: ValidData, r: RoutingLayout, v: int)
    requires ValidRouting(d, r) && 0 <= v < d.userCount
    ensures DerivedBounds(d, r)[r.start(v)].min >= d.userTimeWindow[v][0]
    ensures DerivedBounds(d, r)[r.end(v)].max <= d.userTimeWindow[v][1]
  {
    var t1 := ApplyAll(Unconstrained(r.indexCount, LONG_MAX), SiteUpdates(d, r));
    VehicleUpdatesAt(d, r, v);
    ApplyAllHonours(t1, VehicleUpdates(d, r), 2 * v);
    ApplyAllHonours(t1, VehicleUpdates(d, r), 2 * v + 1);
  }

  /** Every domain stays within the dimension's initial `[0, Long.MAX_VALUE]`: the
      windows can only narrow it. */
  lemma DerivedWithinCapacity(d: ValidData, r: RoutingLayout, idx: int)
    requires ValidRouting(d, r) && 0 <= idx < r.indexCount
    ensures 0 <= DerivedBounds(d, r)[idx].min && DerivedBounds(d, r)[idx].max <= LONG_MAX
  {
    var t0 := Unconstrained(r.indexCount, LONG_MAX);
    ApplyAllNarrows(t0, SiteUpdates(d, r), idx);
    ApplyAllNarrows(ApplyAll(t0, SiteUpdates(d, r)), VehicleUpdates(d, r), idx);
  }

  /** A routing index that is neither a site's index nor a vehicle's start or end keeps
      the unconstrained domain `[0, Long.MAX_VALUE]`. */
  lemma DerivedUntouched(d: ValidData, r: RoutingLayout, idx: int)
    requires ValidRouting(d, r) && 0 <= idx < r.indexCount
    requires forall i :: 1 <= i < d.SiteCount() ==> r.nodeToIndex(i) != idx
    requires forall v :: 0 <= v < d.userCount ==> r.start(v) != idx && r.end(v) != idx
    ensures DerivedBounds(d, r)[idx] == Bounds(0, LONG_MAX)
  {
    var t0 := Unconstrained(r.indexCount, LONG_MAX);
    var su := SiteUpdates(d, r);
    forall k | 0 <= k < |su| ensures su[k].index != idx {
      SiteUpdateAt(d, r, k);
    }
    ApplyAllFrame(t0, su, idx);
    VehicleUpdatesAvoid(d, r, idx);
    ApplyAllFrame(ApplyAll(t0, su), VehicleUpdates(d, r), idx);
  }

  /** The site loop never touches a cumul of the depot (node 0). */
  lemma DepotSiteStage(d: ValidData, r: RoutingLayout, idx: int)
    requires ValidRouting(d, r) && 0 <= idx < r.indexCount
    requires r.indexToNode(idx) == 0
    ensures ApplyAll(Unconstrained(r.indexCount, LONG_MAX), SiteUpdates(d, r))[idx] == Bounds(0, LONG_MAX)
  {
    var su := SiteUpdates(d, r);
    forall k | 0 <= k < |su| ensures su[k].index != idx {
      SiteUpdateAt(d, r, k);
    }
    ApplyAllFrame(Unconstrained(r.indexCount, LONG_MAX), su, idx);
  }

  /** On the built-in instance every site 1..4 may be reached between 09:00 (540)
      and 18:00 minus its dwell. */
  lemma ReferenceSiteBounds(r: RoutingLayout, i: int)
    requires ValidRouting(Reference(), r) && 1 <= i < 5
    ensures DerivedBounds(Reference(), r)[r.nodeToIndex(i)] == Bounds(540, 1080 - Reference().stayingTime[i])
  {
    ReferenceShape();
    DerivedSiteWindowExact(Reference(), r, i);
  }

  /** On the built-in instance the vehicle leaves the depot no earlier than 11:00
      (660) and is back no later than 17:00 (1020); its start and end cumuls receive
      nothing else. */
  lemma ReferenceVehicleBounds(r: RoutingLayout)
    requires ValidRouting(Reference(), r)
    ensures var t, s, e := DerivedBounds(Reference(), r), r.start(0), r.end(0);
            && t[s] == Bounds(660, if s == e then 1020 else LONG_MAX)
            && t[e] == Bounds(if s == e then 660 else 0, 1020)
  {
    var d := Reference();
    ReferenceShape();
    var t0 := Unconstrained(r.indexCount, LONG_MAX);
    var t1 := ApplyAll(t0, SiteUpdates(d, r));
    var s, e := r.start(0), r.end(0);
    DepotSiteStage(d, r, s);
    DepotSiteStage(d, r, e);
    VehicleUpdatesAt(d, r, 0);
    var a, b := MinUpdate(s, 660), MaxUpdate(e, 1020);
    assert VehicleUpdates(d, r) == ([] + [a]) + [b];
    ApplyAllSnoc(t1, [] + [a], b);
    ApplyAllSnoc(t1, [], a);
  }

  /** A domain with at least one value. */
  predicate NonEmpty(b: Bounds) { b.min <= b.max }

  /** On the built-in instance no cumul domain is empty once the windows are set:
      the constraints `main` adds are consistent with one another. */
  lemma ReferenceBoundsNonEmpty(r: RoutingLayout, idx: int)
    requires ValidRouting(Reference(), r) && 0 <= idx < r.indexCount
    ensures NonEmpty(DerivedBounds(Reference(), r)[idx])
  {
    if i :| 1 <= i < 5 && idx == r.nodeToIndex(i) {
      ReferenceSiteNonEmpty(r, i);
    } else if idx == r.start(0) || idx == r.end(0) {
      ReferenceVehicleBounds(r);
    } else {
      DerivedUntouched(Reference(), r, idx);
    }
  }

  lemma ReferenceSiteNonEmpty(r: RoutingLayout, i: int)
    requires ValidRouting(Reference(), r) && 1 <= i < 5
    ensures NonEmpty(DerivedBounds(Reference(), r)[r.nodeToIndex(i)])
  {
    ReferenceShape();
    ReferenceSiteBounds(r, i);
  }
}
