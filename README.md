# OrToolsPoC in Dafny

A model of the logic that `OrToolsPoC.java` supplies around Google OR-Tools when it
plans a one-day tour through Buenos Aires sites (a vehicle routing problem with time
windows). The routing search belongs to the native library and is not modelled. What
the program does itself is modelled:

- the instance data;
- the transit callback;
- the way it narrows the "TotalTime" dimension's cumul variables;
- its `range` helper;
- the extraction of rows from the solver's answer;
- the rows and column that `printSolution` selects;
- the `time(m)` formatter.

Modules, one per file:

- `JavaArith` (`javaarith.dfy`): Java `int`/`long` wrap-around, plus the truncating
  `/` and `%` that Java uses and Dafny's Euclidean operators do not.
- `Streams` (`streams.dfy`): `Stream.iterate(...).limit(n)`, `skip`, `limit`, and
  `range(from, to)`. The helper's second argument is a count, not a bound, so
  `range(from, to)` is `[from, from + to)`. The program only calls it with
  `from == 0`, where the two readings agree.
- `TimeFormat` (`timeformat.dfy`): `time(m)` as an hours/minutes pair, and as the
  `"%02d:%02d hs"` text. A reader function turns the text back into minutes.
- `Data` (`data.dfy`): `DataModel`, its well-formedness (the subtype `ValidData`),
  and the built-in five-site instance `Reference()`.
- `Routing` (`routing.dfy`): the index manager and routing model as given functions
  (`indexToNode`, `nodeToIndex`, `start`, `end`), plus the transit callback.
- `Dimension` (`dimension.dfy`): the cumul domains as `[min, max]` pairs. A domain
  starts at `[0, Long.MAX_VALUE]` and is only intersected by `setRange`, `setMin`
  and `setMax`. The class `TotalTimeDimension` holds the domain table, and its
  setters change it in place. A list of updates (`ApplyAll`) specifies that table.
- `Constraints` (`constraints.dfy`): the site-window loop and the vehicle-window
  loop as methods over the dimension.
  - Each loop is proved to leave exactly the table its list of updates specifies.
  - Lemmas give the resulting domains (`DerivedBounds`): for every site, for every
    vehicle's start and end, for every index nothing names, and for the built-in
    instance.
- `Solution` (`solution.dfy`): the solver's answer is an assignment
  (`next`, `min`, `max`).
  - `buildSolution` walks `next` from each vehicle's start for `siteCount + 1`
    steps.
  - `printSolution` shows column 1 (the earliest time) of the first row after
    "Start:", the rows in between, and column 1 of the last row after "End:".
  - `main`, from the dimension onwards, is the method `RunPoC`. The solver is a
    parameter of it.

## Model

| member | source | states |
|---|---|---|
| JavaArith.WrapLong | OrToolsPoC.java:104-105 | a `long` operation yields a `long`, and equals the exact value whenever that fits in 64 bits |
| JavaArith.QuotRem | OrToolsPoC.java:169 | Java's truncating `m / 60` and `m % 60` recompose `m`; the remainder has the dividend's sign and magnitude below 60; negating the dividend negates both |
| Streams.Skip | OrToolsPoC.java:100 | `skip(n)` drops exactly the first `n` elements (or all of them) and keeps the rest in order |
| Streams.Limit | OrToolsPoC.java:141 | `limit(n)` keeps a prefix of length `min(n, size)` |
| Streams.IterateAt | OrToolsPoC.java:158-159 | element `k` of `Stream.iterate(seed, f).limit(n)` is `f` applied `k` times to the seed |
| Streams.RangeAt | OrToolsPoC.java:66-71 | `range(from, to)` has exactly `to` elements, the `k`-th being `from + k`, i.e. `[from, from + to)` |
| Streams.RangeFromZero | OrToolsPoC.java:66-71 | `range(0, n)` is `0 .. n-1` and `range(0, n).skip(1)` is `1 .. n-1` |
| Streams.SkipOneRangeAt | OrToolsPoC.java:100 | element `k` of `range(0, n).skip(1)` is `k + 1`, and there are `n - 1` of them |
| TimeFormat.Time | OrToolsPoC.java:167-171 | hours * 60 + minutes == m, minutes within (-60, 60), both fields non-negative for m >= 0 and non-positive for m <= 0 |
| TimeFormat.TimeUnique | OrToolsPoC.java:169 | for m >= 0 the fields are the unique split of m with 0 <= minutes < 60 |
| TimeFormat.Format02dCorrect | OrToolsPoC.java:169 | `%02d` prints a non-negative field as at least two digits that read back as the field, exactly two below 100; a negative field keeps its minus sign |
| TimeFormat.TimeTextRoundTrip | OrToolsPoC.java:167-171 | for m >= 0 the text is `HH:MM hs` (colon six from the end, " hs" suffix) and reads back to m |
| Data.ReferenceShape | OrToolsPoC.java:35-62 | the built-in instance (a `ValidData`: square long matrix, paired windows, one dwell per site) has 5 sites, one vehicle from node 0 back to node 0, a zero diagonal, a free depot, and open <= close - stay at sites 1..4 |
| Routing.TransitIgnoresArrivalDwell | OrToolsPoC.java:82-88 | the transit charges the dwell of the node left: changing any other node's dwell leaves it unchanged |
| Routing.TransitExact | OrToolsPoC.java:84-86 | on data with dwell and travel times in [0, Long.MAX_VALUE / 2] the `long` sum does not wrap: transit == stay[from] + distance[from][to] >= 0 |
| Routing.ReferenceTransit | OrToolsPoC.java:84-86 | on the built-in instance every transit is within [0, 84], and 0 when leaving the depot |
| Dimension.Tighten | OrToolsPoC.java:103-115 | an IntVar update gives exactly the intersection of the old domain with the requested bounds: never wider, honouring the bounds |
| Dimension.ApplyAllDomain | OrToolsPoC.java:100-117 | after a sequence of updates a variable's domain holds x iff its initial domain does and every update naming it allows x |
| Dimension.ApplyAllHonours | OrToolsPoC.java:100-117 | every update's bounds still hold in the final table |
| Dimension.ApplyAllNarrows | OrToolsPoC.java:100-117 | updates never widen any domain |
| Dimension.ApplyAllFrame | OrToolsPoC.java:100-117 | a variable no update names keeps its domain |
| Dimension.ApplyAllSingle | OrToolsPoC.java:100-117 | a variable named by exactly one update ends with that update's tightening of its initial domain |
| Dimension.ApplyAllAppend | OrToolsPoC.java:100-117 | running two batches of updates one after the other equals running them concatenated |
| Dimension.TotalTimeDimension.constructor | OrToolsPoC.java:92-96 | `addDimension` with capacity `c` gives every cumul the domain `[0, c]` |
| Dimension.TotalTimeDimension.SetRange | OrToolsPoC.java:103-105 | `setRange(lo, hi)` intersects one cumul's domain with [lo, hi] and changes nothing else |
| Dimension.TotalTimeDimension.SetMin | OrToolsPoC.java:111-112 | `setMin(lo)` raises one cumul's min to at least lo and changes nothing else |
| Dimension.TotalTimeDimension.SetMax | OrToolsPoC.java:114-115 | `setMax(hi)` lowers one cumul's max to at most hi and changes nothing else |
| Constraints.SiteNodesAre | OrToolsPoC.java:100 | the site loop visits nodes 1 .. siteCount-1 in order; the depot is skipped |
| Constraints.SiteNodeAt | OrToolsPoC.java:100 | visit k of the site loop is node k+1 |
| Constraints.SiteUpdateAt | OrToolsPoC.java:100-107 | the site loop issues siteCount-1 updates; update k is `setRange(open, close - stay)` of node k+1 on an index of node k+1 |
| Constraints.SiteUpdatesDistinct | OrToolsPoC.java:100-107 | no two site-loop updates name the same routing index |
| Constraints.VehicleUpdatesAt | OrToolsPoC.java:109-117 | the vehicle loop issues 2 * userCount updates: `setMin(open)` on vehicle v's start, then `setMax(close)` on its end |
| Constraints.VehicleUpdatesAvoid | OrToolsPoC.java:109-117 | an index that is no vehicle's start or end is not named by the vehicle loop |
| Constraints.ConstrainSites | OrToolsPoC.java:100-107 | the loop leaves the dimension's table equal to the old table with all site windows applied in order |
| Constraints.ConstrainVehicles | OrToolsPoC.java:109-117 | the loop leaves the table equal to the old table with every vehicle's start/end bounds applied in order |
| Constraints.BuildDimension | OrToolsPoC.java:92-117 | the dimension `main` hands to the solver holds exactly `DerivedBounds` |
| Constraints.DerivedSiteWindow | OrToolsPoC.java:100-107 | every site's cumul lies inside `[open, close - stay]` and inside `[0, Long.MAX_VALUE]` |
| Constraints.SiteStageAt | OrToolsPoC.java:100-107 | after the site loop, site i's cumul is exactly its window intersected with `[0, Long.MAX_VALUE]` |
| Constraints.DerivedSiteWindowExact | OrToolsPoC.java:100-117 | a site where no vehicle starts or ends has exactly its window intersected with `[0, Long.MAX_VALUE]` |
| Constraints.DerivedVehicleWindow | OrToolsPoC.java:109-117 | each vehicle's start cumul has min >= its window's opening, and its end cumul has max <= the closing |
| Constraints.DerivedWithinCapacity | OrToolsPoC.java:92-117 | every domain stays inside the initial `[0, Long.MAX_VALUE]` |
| Constraints.DerivedUntouched | OrToolsPoC.java:92-117 | an index that is no site's index and no vehicle's start or end keeps `[0, Long.MAX_VALUE]` |
| Constraints.DepotSiteStage | OrToolsPoC.java:100-107 | the site loop never touches a depot index |
| Constraints.ReferenceSiteBounds | OrToolsPoC.java:100-107 | on the built-in instance site i gets exactly `[540, 1080 - stay_i]` |
| Constraints.ReferenceVehicleBounds | OrToolsPoC.java:109-117 | on the built-in instance the start cumul gets min 660 and the end cumul max 1020, nothing else (both when start == end) |
| Constraints.ReferenceBoundsNonEmpty | OrToolsPoC.java:100-117 | on the built-in instance no cumul domain is empty |
| Solution.RoutesAt | OrToolsPoC.java:156-159 | the index at position v * (siteCount + 1) + k of the flattened walks is next^k(start(v)) |
| Solution.BuildSolutionShape | OrToolsPoC.java:150-165 | `buildSolution` returns userCount * (siteCount + 1) rows; row k of vehicle v renders the routing index next^k(start(v)) |
| Solution.RowReadsBack | OrToolsPoC.java:160-162 | for an assignment within the derived domains, both times of a row read back as the assignment's min and max, which lie within the domain |
| Solution.SiteRowInWindow | OrToolsPoC.java:160-162 | a site's row names the site and shows open <= earliest <= latest <= close - stay |
| Solution.StartRowOnTime | OrToolsPoC.java:156-162 | each vehicle's first row is its start site, with an earliest time no earlier than its window's opening |
| Solution.EndRowOnTime | OrToolsPoC.java:156-162 | when the walk reaches the end index after siteCount steps, the vehicle's last row is its end site, with both times no later than its window's closing |
| Solution.SelectForPrint | OrToolsPoC.java:133-148 | printing succeeds iff there are at least two rows; Start/End show column 1 (earliest) of the first/last row; the middle rows are all others, in order |
| Solution.EmptyDomainUnfeasible | OrToolsPoC.java:124-129 | when the windows leave some cumul domain empty the solver answers nothing, since no assignment fits an empty domain |
| Solution.SiteWindowUnfeasible | OrToolsPoC.java:100-107 | a site with `open > close - stay` makes the solver answer nothing |
| Solution.RunPoC | OrToolsPoC.java:119-129 | `main` fails as unfeasible exactly when the solver answers nothing; otherwise it prints the selection from `buildSolution` on the solver's answer for the derived domains; an empty derived domain always ends as unfeasible |
| Solution.ReferencePrintout | OrToolsPoC.java:133-148 | on the built-in instance any answer prints: four middle rows, a Start time no earlier than 11:00, and an End time no later than 17:00 when the walk closes at the end index |
| Solution.SelectMiddle | OrToolsPoC.java:139-142 | the printed middle rows are rows 1 .. size-2 of the solution, in order: middle row k is row k+1 |
| Solution.ReferenceRowInWindow | OrToolsPoC.java:156-162 | on the built-in instance the solution has six rows, and row k that visits site i renders that site's index, names the site, and reads back within `[540, 1080 - stay_i]` |
| Solution.ReferenceStopInWindow | OrToolsPoC.java:139-142 | on the built-in instance a printed middle row k-1 that visits site i is row k of `buildSolution`, names the site, and reads back within `[540, 1080 - stay_i]` |

## Left out

- The OR-Tools solver, the `PATH_CHEAPEST_ARC` strategy, bound propagation, and the
  arc cost evaluator (lines 90, 119-122). They run in a native library. The solver is
  the parameter `solve` of `RunPoC`. `SolverAnswers` assumes that an answer is a
  valid assignment inside the derived domains.
- The layout of `RoutingIndexManager`. `indexToNode`, `nodeToIndex`, `start` and
  `end` are given functions, constrained only by `ValidRouting`. `next` is assumed to
  map routing indices to routing indices (`ValidAssignment`), including past a
  vehicle's end index, which is library behaviour.
- How OR-Tools detects an empty domain. A domain with `min > max` stays in the
  table as such. `SolverAnswers` requires every answer to keep within the derived
  domains, so the library's rejection of an empty domain is assumed through it and
  the outcome is proved (`Solution.EmptyDomainUnfeasible`).
- The dimension's slack maximum and the `fix_start_cumul_to_zero` flag (lines 93-95).
  A slack of `Long.MAX_VALUE` is what lets a vehicle wait at a site. Both belong to
  the solver's model, which is left out as a whole.
- Native library loading (line 23) and console output. `printSolution` is modelled
  as the values it selects. With exactly one row it prints the "Start:" line before
  it throws; the model records only that printing fails (`PrintFailed`).
- `String.format` beyond `%02d` of an integer. The text is built from ASCII digits
  only, with no locale.
- Streams.Range: a negative count, on which `limit` throws, is excluded by a
  precondition. The program never passes one.
- Constraints.DerivedVehicleWindow: states `>=` and `<=` rather than equality,
  because `setMin` and `setMax` intersect with bounds an earlier site-loop update
  may have set on the same index. On the built-in instance the equality holds
  (`Constraints.ReferenceVehicleBounds`).
