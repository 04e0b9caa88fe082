/** The problem instance, `PoC.DataModel` (OrToolsPoC.java:33-64): five sites
    (node 0 is the depot), an asymmetric travel-time matrix in minutes, opening
    windows, dwell ("staying") times and one vehicle (user) with its own window,
    starting and ending at node 0. All numbers are Java `long`s or `int`s. */
module Data {
  import opened JavaArith

  datatype DataModel = DataModel(
    sites: seq<string>,
    distanceMatrix: seq<seq<int>>,
    sitesTimeWindows: seq<seq<int>>,
    userCount: int,
    userTimeWindow: seq<seq<int>>,
    start: seq<int>,
    end: seq<int>,
    stayingTime: seq<int>)
  {
    /** `siteCount = sites.length`. */
    function SiteCount(): int { |sites| }
  }

  /** The per-site tables: one entry per site (the matrix is square), every window
      a pair, every number a `long`. `siteCount + 1` is computed in `int`, so the
      site count stays below INT_MAX. */
  predicate SitesWellFormed(d: DataModel)
  {
    var n := |d.sites|;
    && n < INT_MAX
    && |d.distanceMatrix| == n
    && (forall i :: 0 <= i < n ==> |d.distanceMatrix[i]| == n)
    && (forall i, j :: 0 <= i < n && 0 <= j < n ==> IsLong(d.distanceMatrix[i][j]))
    && |d.sitesTimeWindows| == n
    && (forall i :: 0 <= i < n ==> |d.sitesTimeWindows[i]| == 2)
    && (forall i :: 0 <= i < n ==> IsLong(d.sitesTimeWindows[i][0]) && IsLong(d.sitesTimeWindows[i][1]))
    && |d.stayingTime| == n
    && (forall i :: 0 <= i < n ==> IsLong(d.stayingTime[i]))
  }

  /** The per-vehicle tables: a window pair of `long`s for each of the `userCount`
      vehicles. */
  predicate VehiclesWellFormed(d: DataModel)
  {
    && 0 <= d.userCount <= INT_MAX
    && |d.userTimeWindow| == d.userCount
    && (forall v :: 0 <= v < d.userCount ==> |d.userTimeWindow[v]| == 2)
    && (forall v :: 0 <= v < d.userCount ==> IsLong(d.userTimeWindow[v][0]) && IsLong(d.userTimeWindow[v][1]))
  }

  /** What the program's array accesses rely on: well-formed site and vehicle
      tables, and start/end nodes that exist for every vehicle. */
  predicate WellFormed(d: DataModel)
  {
    && SitesWellFormed(d)
    && VehiclesWellFormed(d)
    && |d.start| == d.userCount && |d.end| == d.userCount
    && (forall v :: 0 <= v < d.userCount ==> 0 <= d.start[v] < |d.sites| && 0 <= d.end[v] < |d.sites|)
  }

  /** Instances the program can run on. */
  type ValidData = d: DataModel | WellFormed(d) witness DataModel([], [], [], 0, [], [], [], [])

  /** The instance `new DataModel()` builds (OrToolsPoC.java:35-62). */
  function Reference(): ValidData
  {
    var d := DataModel(
      ["DEPOT", "Bombonera", "Luna Park", "Obelisco", "Casa Rosada"],
      [[0, 0, 0, 0, 0],
       [0, 0, 17, 21, 19],
       [0, 13, 0, 12, 10],
       [0, 19, 9, 0, 13],
       [0, 17, 11, 16, 0]],
      [[0 * 60, 0 * 60],
       [9 * 60, 18 * 60],
       [9 * 60, 18 * 60],
       [9 * 60, 18 * 60],
       [9 * 60, 18 * 60]],
      1,
      [[11 * 60, 17 * 60]],
      [0],
      [0],
      [0, 35, 45, 65, 50]);
    assert forall i, j :: 0 <= i < 5 && 0 <= j < 5 ==> 0 <= d.distanceMatrix[i][j] <= 21;
    d
  }

  /** The shape of the built-in instance: five sites, one vehicle starting and
      ending at the depot, a zero diagonal, a free depot (no dwell, and row 0 of
      the matrix all zeros), and a non-empty arrival window `[open, close - stay]`
      at every non-depot site. */
  lemma ReferenceShape()
    ensures Reference().SiteCount() == 5 && Reference().userCount == 1
    ensures Reference().start == [0] && Reference().end == [0]
    ensures forall i :: 0 <= i < 5 ==> Reference().distanceMatrix[i][i] == 0
    ensures Reference().stayingTime[0] == 0
    ensures forall j :: 0 <= j < 5 ==> Reference().distanceMatrix[0][j] == 0
    ensures forall i :: 1 <= i < 5 ==>
              Reference().sitesTimeWindows[i][0] <= Reference().sitesTimeWindows[i][1] - Reference().stayingTime[i]
  {
  }
}
