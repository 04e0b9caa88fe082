/** Reading the solver's answer back (OrToolsPoC.java:119-165): `buildSolution`
    walks each vehicle's route through the assignment's successor function and
    renders one row per visited index; `printSolution` selects what it prints.
    The solver itself is a parameter: whatever it answers is taken as given. */
module Solution {
  import opened JavaArith
  import opened Streams
  import opened TimeFormat
  import opened Data
  import opened Routing
  import opened Dimension
  import opened Constraints

  datatype Option<T> = None | Some(value: T)

  /** What the program reads from the solver's `Assignment`: `routing.next(solution, index)`
      and the `min` / `max` of each index's cumul variable. */
  datatype Assignment = Assignment(next: int -> int, min: int -> int, max: int -> int)

  /** The successor of every routing index is a routing index. */
  predicate ValidAssignment(r: RoutingLayout, a: Assignment)
  {
    forall idx :: 0 <= idx < r.indexCount ==> IsIndex(r, a.next(idx))
  }

  /** The assignment keeps every cumul inside the domain the program set up, and
      reports a `min` no greater than its `max`. */
  predicate Respects(t: seq<Bounds>, a: Assignment)
  {
    forall idx :: 0 <= idx < |t| ==> t[idx].min <= a.min(idx) <= a.max(idx) <= t[idx].max
  }

  /** One element of `buildSolution`'s result: `Arrays.asList(site, time(min), time(max))`. */
  datatype Row = Row(site: string, earliest: string, latest: string)

  /** The walk of vehicle `v`: `Stream.iterate(routing.start(v), next).limit(siteCount + 1)`.
      `siteCount + 1` is an `int` sum; the site count is below `Integer.MAX_VALUE`. */
  function Route(d: ValidData, r: RoutingLayout, a: Assignment, v: int): (s: seq<int>)
    ensures |s| == d.SiteCount() + 1
  {
    Iterate(r.start(v), a.next, d.SiteCount() + 1)
  }

  /** `flatMap` of the walks over the vehicles `vs`, in order. */
  function RoutesFor(d: ValidData, r: RoutingLayout, a: Assignment, vs: seq<int>): (s: seq<int>)
    ensures |s| == |vs| * (d.SiteCount() + 1)
  {
    if vs == [] then []
    else
      var s := RoutesFor(d, r, a, vs[..|vs| - 1]) + Route(d, r, a, vs[|vs| - 1]);
      assert |s| == (|vs| - 1) * (d.SiteCount() + 1) + (d.SiteCount() + 1);
      s
  }

  /** Row `j * (siteCount + 1) + k` of a block of routes lies inside the block. */
  lemma RowPosition(c: int, len: int, j: int, k: int)
    requires 0 <= j < c && 0 <= k < len
    ensures 0 <= j * len + k < c * len
  {
    assert j * len <= (c - 1) * len by {
      assert (c - 1) * len - j * len == (c - 1 - j) * len;
    }
  }

  /** Position `j * (siteCount + 1) + k` of the flattened walks is step `k` of
      vehicle `vs[j]`'s walk. */
  lemma {:induction false} RoutesForAt(d: ValidData, r: RoutingLayout, a: Assignment, vs: seq<int>, j: int, k: int)
    requires 0 <= j < |vs| && 0 <= k <= d.SiteCount()
    ensures 0 <= j * (d.SiteCount() + 1) + k < |RoutesFor(d, r, a, vs)|
    ensures RoutesFor(d, r, a, vs)[j * (d.SiteCount() + 1) + k] == Route(d, r, a, vs[j])[k]
  {
    var len := d.SiteCount() + 1;
    var front := vs[..|vs| - 1];
    RowPosition(|vs|, len, j, k);
    if j < |vs| - 1 {
      RoutesForAt(d, r, a, front, j, k);
    } else {
      assert |RoutesFor(d, r, a, front)| == j * len;
    }
  }

  /** On a valid assignment every index of every walk is a routing index. */
  lemma {:induction false} RoutesForIndices(d: ValidData, r: RoutingLayout, a: Assignment, vs: seq<int>)
    requires ValidRouting(d, r) && ValidAssignment(r, a) && AreVehicles(d, vs)
    ensures forall m :: 0 <= m < |RoutesFor(d, r, a, vs)| ==> IsIndex(r, RoutesFor(d, r, a, vs)[m])
  {
    if vs != [] {
      var front, v := vs[..|vs| - 1], vs[|vs| - 1];
      RoutesForIndices(d, r, a, front);
      IterateClosed(r.start(v), a.next, d.SiteCount() + 1, x => IsIndex(r, x));
    }
  }

  /** The row `buildSolution` renders for one routing index. */
  function RowOf(d: ValidData, r: RoutingLayout, a: Assignment, idx: int): Row
    requires NodeIndices(d, r) && IsIndex(r, idx)
  {
    Row(d.sites[r.indexToNode(idx)], TimeText(a.min(idx)), TimeText(a.max(idx)))
  }

  /** The indices `buildSolution` visits: the walks of `range(0, userCount)`, in order. */
  function Routes(d: ValidData, r: RoutingLayout, a: Assignment): (s: seq<int>)
    requires ValidRouting(d, r) && ValidAssignment(r, a)
    ensures |s| == d.userCount * (d.SiteCount() + 1)
    ensures forall m :: 0 <= m < |s| ==> IsIndex(r, s[m])
  {
    RoutesForIndices(d, r, a, Vehicles(d));
    RoutesFor(d, r, a, Vehicles(d))
  }

  /** Step `k` of vehicle `v`'s walk sits at position `v * (siteCount + 1) + k`. */
  lemma RoutesAt(d: ValidData, r: RoutingLayout, a: Assignment, v: int, k: int)
    requires ValidRouting(d, r) && ValidAssignment(r, a)
    requires 0 <= v < d.userCount && 0 <= k <= d.SiteCount()
    ensures 0 <= v * (d.SiteCount() + 1) + k < |Routes(d, r, a)|
    ensures Routes(d, r, a)[v * (d.SiteCount() + 1) + k] == Power(a.next, k, r.start(v))
  {
    RangeAt(0, d.userCount, v);
    RoutesForAt(d, r, a, Vehicles(d), v, k);
    IterateAt(r.start(v), a.next, d.SiteCount() + 1, k);
  }

  /** `buildSolution`: one row per index of each vehicle's walk, vehicles in order. */
  function BuildSolution(d: ValidData, r: RoutingLayout, a: Assignment): (rows: seq<Row>)
    requires ValidRouting(d, r) && ValidAssignment(r, a)
    ensures |rows| == d.userCount * (d.SiteCount() + 1)
  {
    var idxs := Routes(d, r, a);
    seq(|idxs|, m requires 0 <= m < |idxs| => RowOf(d, r, a, idxs[m]))
  }

  /** `buildSolution` returns `userCount * (siteCount + 1)` rows; row `k` of vehicle `v`
      renders the index reached after `k` steps of `next` from `start(v)`. */
  lemma BuildSolutionShape(d: ValidData, r: RoutingLayout, a: Assignment, v: int, k: int)
    requires ValidRouting(d, r) && ValidAssignment(r, a)
    requires 0 <= v < d.userCount && 0 <= k <= d.SiteCount()
    ensures |BuildSolution(d, r, a)| == d.userCount * (d.SiteCount() + 1)
    ensures 0 <= v * (d.SiteCount() + 1) + k < |BuildSolution(d, r, a)|
    ensures IsIndex(r, Power(a.next, k, r.start(v)))
    ensures BuildSolution(d, r, a)[v * (d.SiteCount() + 1) + k] == RowOf(d, r, a, Power(a.next, k, r.start(v)))
  {
    RoutesAt(d, r, a, v, k);
  }

  /** A cumul that keeps within the derived domains has a non-negative `min`, so both
      times of its row have the shape `HH:MM hs` and read back as the assignment's values. */
  lemma RowReadsBack(d: ValidData, r: RoutingLayout, a: Assignment, idx: int)
    requires ValidRouting(d, r) && Respects(DerivedBounds(d, r), a) && IsIndex(r, idx)
    ensures |RowOf(d, r, a, idx).earliest| >= 8 && |RowOf(d, r, a, idx).latest| >= 8
    ensures ParseTimeText(RowOf(d, r, a, idx).earliest) == a.min(idx)
    ensures ParseTimeText(RowOf(d, r, a, idx).latest) == a.max(idx)
    ensures DerivedBounds(d, r)[idx].min <= a.min(idx) <= a.max(idx) <= DerivedBounds(d, r)[idx].max
  {
    DerivedWithinCapacity(d, r, idx);
    TimeTextRoundTrip(a.min(idx));
    TimeTextRoundTrip(a.max(idx));
  }

  /** A row for a non-depot site shows times inside its arrival window
      `[open, close - stay]`. */
  lemma SiteRowInWindow(d: ValidData, r: RoutingLayout, a: Assignment, i: int)
    requires ValidRouting(d, r) && Respects(DerivedBounds(d, r), a)
    requires 1 <= i < d.SiteCount()
    ensures var row := RowOf(d, r, a, r.nodeToIndex(i));
            && row.site == d.sites[i]
            && d.sitesTimeWindows[i][0] <= ParseTimeText(row.earliest) <= ParseTimeText(row.latest)
            && ParseTimeText(row.latest) <= WrapLong(d.sitesTimeWindows[i][1] - d.stayingTime[i])
  {
    DerivedSiteWindow(d, r, i);
    RowReadsBack(d, r, a, r.nodeToIndex(i));
  }

  /** Each vehicle's first row (its start index) shows an earliest time no earlier
      than the opening of the vehicle's window. */
  lemma StartRowOnTime(d: ValidData, r: RoutingLayout, a: Assignment, v: int)
    requires ValidRouting(d, r) && ValidAssignment(r, a)
    requires Respects(DerivedBounds(d, r), a) && 0 <= v < d.userCount
    ensures var rows := BuildSolution(d, r, a);
            && 0 <= v * (d.SiteCount() + 1) < |rows|
            && rows[v * (d.SiteCount() + 1)].site == d.sites[d.start[v]]
            && ParseTimeText(rows[v * (d.SiteCount() + 1)].earliest) >= d.userTimeWindow[v][0]
  {
    BuildSolutionShape(d, r, a, v, 0);
    DerivedVehicleWindow(d, r, v);
    RowReadsBack(d, r, a, r.start(v));
  }

  /** When a vehicle's walk reaches its end index after `siteCount` steps, its last
      row shows both times no later than the closing of the vehicle's window. */
  lemma EndRowOnTime(d: ValidData, r: RoutingLayout, a: Assignment, v: int)
    requires ValidRouting(d, r) && ValidAssignment(r, a)
    requires Respects(DerivedBounds(d, r), a) && 0 <= v < d.userCount
    requires Power(a.next, d.SiteCount(), r.start(v)) == r.end(v)
    ensures var rows, last := BuildSolution(d, r, a), v * (d.SiteCount() + 1) + d.SiteCount();
            && 0 <= last < |rows|
            && rows[last].site == d.sites[d.end[v]]
            && ParseTimeText(rows[last].earliest) <= ParseTimeText(rows[last].latest) <= d.userTimeWindow[v][1]
  {
    BuildSolutionShape(d, r, a, v, d.SiteCount());
    DerivedVehicleWindow(d, r, v);
    RowReadsBack(d, r, a, r.end(v));
  }

  /** What `printSolution` shows: column 1 (the earliest time) of the first row after
      "Start:", the rows in between, and column 1 of the last row after "End:". */
  datatype Printout = Printout(start: string, middle: seq<Row>, end: string)

  /** The selection `printSolution` makes. With fewer than two rows it throws
      (`get(0)` on an empty list, or `limit` of a negative count). */
  function SelectForPrint(rows: seq<Row>): (p: Option<Printout>)
    ensures p.Some? <==> |rows| >= 2
    ensures p.Some? ==> p.value.start == rows[0].earliest && p.value.end == rows[|rows| - 1].earliest
    ensures p.Some? ==> rows == [rows[0]] + p.value.middle + [rows[|rows| - 1]]
  {
    if |rows| < 2 then None
    else
      var middle := Limit(Skip(rows, 1), |rows| - 2);
      assert middle == rows[1..|rows| - 1];
      Some(Printout(rows[0].earliest, middle, rows[|rows| - 1].earliest))
  }

  /** How `main` ends. */
  datatype Outcome =
    | Unfeasible          // the solver returned null: UnfeasibleProblemException
    | PrintFailed         // printSolution threw on fewer than two rows
    | Printed(out: Printout)

  function Report(p: Option<Printout>): Outcome
  {
    match p
    case None => PrintFailed
    case Some(out) => Printed(out)
  }

  /** What the program takes of the solver: any assignment it returns for the derived
      domains is valid and keeps within them. */
  predicate SolverAnswers(d: ValidData, r: RoutingLayout, solve: seq<Bounds> -> Option<Assignment>)
    requires ValidRouting(d, r)
  {
    var t := DerivedBounds(d, r);
    solve(t).Some? ==> ValidAssignment(r, solve(t).value) && Respects(t, solve(t).value)
  }

  /** No assignment keeps within an empty domain, so when the windows leave some
      cumul empty the solver has no answer. */
  lemma EmptyDomainUnfeasible(d: ValidData, r: RoutingLayout, solve: seq<Bounds> -> Option<Assignment>, idx: int)
    requires ValidRouting(d, r) && SolverAnswers(d, r, solve)
    requires 0 <= idx < r.indexCount && !NonEmpty(DerivedBounds(d, r)[idx])
    ensures solve(DerivedBounds(d, r)).None?
  {
  }

  /** A site whose dwell does not fit in its window (`open > close - stay`) makes the
      problem unfeasible. */
  lemma SiteWindowUnfeasible(d: ValidData, r: RoutingLayout, solve: seq<Bounds> -> Option<Assignment>, i: int)
    requires ValidRouting(d, r) && SolverAnswers(d, r, solve) && 1 <= i < d.SiteCount()
    requires d.sitesTimeWindows[i][0] > WrapLong(d.sitesTimeWindows[i][1] - d.stayingTime[i])
    ensures solve(DerivedBounds(d, r)).None?
  {
    DerivedSiteWindow(d, r, i);
    EmptyDomainUnfeasible(d, r, solve, r.nodeToIndex(i));
  }

  /** `main` from the dimension onwards (OrToolsPoC.java:92-129): set up the domains,
      ask the solver, and either fail or select the rows to print. Constraints that
      leave a cumul without any value always end in `UnfeasibleProblemException`. */
  method RunPoC(d: ValidData, r: RoutingLayout, solve: seq<Bounds> -> Option<Assignment>) returns (out: Outcome)
    requires ValidRouting(d, r) && SolverAnswers(d, r, solve)
    ensures out == Unfeasible <==> solve(DerivedBounds(d, r)).None?
    ensures solve(DerivedBounds(d, r)).Some? ==>
              out == Report(SelectForPrint(BuildSolution(d, r, solve(DerivedBounds(d, r)).value)))
    ensures (exists idx :: 0 <= idx < r.indexCount && !NonEmpty(DerivedBounds(d, r)[idx])) ==> out == Unfeasible
  {
    var dim := BuildDimension(d, r);
    var answer := solve(dim.cumul);
    if exists idx :: 0 <= idx < r.indexCount && !NonEmpty(DerivedBounds(d, r)[idx]) {
      var idx :| 0 <= idx < r.indexCount && !NonEmpty(DerivedBounds(d, r)[idx]);
      EmptyDomainUnfeasible(d, r, solve, idx);
    }
    if answer.None? {
      return Unfeasible;
    }
    var rows := BuildSolution(d, r, answer.value);
    out := Report(SelectForPrint(rows));
  }

  /** On the built-in instance an answer from the solver is always printed: six rows,
      the four in the middle shown in full, and the "Start:" time no earlier than 11:00.
      When the walk returns to the end index after visiting all four sites, the "End:"
      time is no later than 17:00. */
  lemma ReferencePrintout(r: RoutingLayout, a: Assignment)
    requires ValidRouting(Reference(), r) && ValidAssignment(r, a)
    requires Respects(DerivedBounds(Reference(), r), a)
    ensures var p := SelectForPrint(BuildSolution(Reference(), r, a));
            && p.Some? && |p.value.middle| == 4
            && ParseTimeText(p.value.start) >= 660
            && (Power(a.next, 5, r.start(0)) == r.end(0) ==> ParseTimeText(p.value.end) <= 1020)
  {
    var d := Reference();
    ReferenceShape();
    StartRowOnTime(d, r, a, 0);
    if Power(a.next, 5, r.start(0)) == r.end(0) {
      EndRowOnTime(d, r, a, 0);
    }
  }

  /** The middle rows `printSolution` shows are rows 1 .. size-2, in order. */
  lemma SelectMiddle(rows: seq<Row>, k: int)
    requires 0 <= k < |rows| - 2
    ensures SelectForPrint(rows).Some? && |SelectForPrint(rows).value.middle| == |rows| - 2
    ensures SelectForPrint(rows).value.middle[k] == rows[k + 1]
  {
    var p := SelectForPrint(rows);
    assert rows == [rows[0]] + p.value.middle + [rows[|rows| - 1]];
    assert rows[k + 1] == ([rows[0]] + p.value.middle + [rows[|rows| - 1]])[k + 1];
  }

  /** On the built-in instance, row k of `buildSolution`, when it is a visit to site i,
      names the site and shows times inside its arrival window `[09:00, 18:00 - stay_i]`. */
  lemma ReferenceRowInWindow(r: RoutingLayout, a: Assignment, k: int, i: int)
    requires ValidRouting(Reference(), r) && ValidAssignment(r, a)
    requires Respects(DerivedBounds(Reference(), r), a)
    requires 1 <= k <= 4 && 1 <= i < 5 && Power(a.next, k, r.start(0)) == r.nodeToIndex(i)
    ensures var rows := BuildSolution(Reference(), r, a);
            && |rows| == 6
            && rows[k] == RowOf(Reference(), r, a, r.nodeToIndex(i))
            && rows[k].site == Reference().sites[i]
            && 540 <= ParseTimeText(rows[k].earliest)
            && ParseTimeText(rows[k].latest) <= 1080 - Reference().stayingTime[i]
  {
    var d := Reference();
    ReferenceShape();
    BuildSolutionShape(d, r, a, 0, k);
    ReferenceSiteBounds(r, i);
    RowReadsBack(d, r, a, r.nodeToIndex(i));
  }

  /** On the built-in instance, a middle row printed for a visit to site i shows its
      name and times inside the site's arrival window `[09:00, 18:00 - stay_i]`. */
  lemma ReferenceStopInWindow(r: RoutingLayout, a: Assignment, k: int, i: int)
    requires ValidRouting(Reference(), r) && ValidAssignment(r, a)
    requires Respects(DerivedBounds(Reference(), r), a)
    requires 1 <= k <= 4 && 1 <= i < 5 && Power(a.next, k, r.start(0)) == r.nodeToIndex(i)
    ensures var p := SelectForPrint(BuildSolution(Reference(), r, a));
            && p.Some? && |p.value.middle| == 4
            && p.value.middle[k - 1] == RowOf(Reference(), r, a, r.nodeToIndex(i))
            && p.value.middle[k - 1].site == Reference().sites[i]
            && 540 <= ParseTimeText(p.value.middle[k - 1].earliest)
            && ParseTimeText(p.value.middle[k - 1].latest) <= 1080 - Reference().stayingTime[i]
  {
    ReferenceRowInWindow(r, a, k, i);
    SelectMiddle(BuildSolution(Reference(), r, a), k - 1);
  }
}
