/** The "TotalTime" dimension's cumul variables as the program sees them: one
    `[min, max]` domain per routing index. `addDimension(..., Long.MAX_VALUE,
    Long.MAX_VALUE, false, ...)` (OrToolsPoC.java:92-96) creates every cumul with
    the domain `[0, capacity]`, capacity `Long.MAX_VALUE`; `setRange`, `setMin` and
    `setMax` only ever intersect a domain with the requested bounds. A domain
    whose `min` exceeds its `max` is empty: OR-Tools then fails the model and the
    search finds no solution. */
module Dimension {
  datatype Bounds = Bounds(min: int, max: int)

  /** A requested tightening of one cumul variable, as the program issues them. */
  datatype BoundUpdate =
    | RangeUpdate(index: int, lo: int, hi: int)  // cumulVar(index).setRange(lo, hi)
    | MinUpdate(index: int, lo: int)             // cumulVar(index).setMin(lo)
    | MaxUpdate(index: int, hi: int)             // cumulVar(index).setMax(hi)

  /** `x` is in the domain `b`. */
  predicate InDomain(b: Bounds, x: int) { b.min <= x <= b.max }

  /** `x` satisfies what the update asks of its variable. */
  predicate Allows(u: BoundUpdate, x: int)
  {
    match u
    case RangeUpdate(_, lo, hi) => lo <= x <= hi
    case MinUpdate(_, lo) => lo <= x
    case MaxUpdate(_, hi) => x <= hi
  }

  /** `b` keeps within the bound(s) the update requests: min at least `lo`, max at most `hi`. */
  predicate Honours(u: BoundUpdate, b: Bounds)
  {
    match u
    case RangeUpdate(_, lo, hi) => lo <= b.min && b.max <= hi
    case MinUpdate(_, lo) => lo <= b.min
    case MaxUpdate(_, hi) => b.max <= hi
  }

  /** `b` is at least as tight as `c` on both sides. */
  predicate Narrower(b: Bounds, c: Bounds) { c.min <= b.min && b.max <= c.max }

  /** The domains of a freshly added dimension. */
  function Unconstrained(count: nat, capacity: int): seq<Bounds>
  {
    seq(count, _ => Bounds(0, capacity))
  }

  /** One IntVar update: the new domain is exactly the old domain intersected with
      the requested bounds, and it never widens the old one. */
  function Tighten(b: Bounds, u: BoundUpdate): (r: Bounds)
    ensures Narrower(r, b) && Honours(u, r)
    ensures forall x :: InDomain(r, x) <==> InDomain(b, x) && Allows(u, x)
  {
    match u
    case RangeUpdate(_, lo, hi) => Bounds(if lo > b.min then lo else b.min, if hi < b.max then hi else b.max)
    case MinUpdate(_, lo) => Bounds(if lo > b.min then lo else b.min, b.max)
    case MaxUpdate(_, hi) => Bounds(b.min, if hi < b.max then hi else b.max)
  }

  predicate TargetsWithin(us: seq<BoundUpdate>, count: int)
  {
    forall k :: 0 <= k < |us| ==> 0 <= us[k].index < count
  }

  /** The table after one update of the variable it names. */
  function Apply(t: seq<Bounds>, u: BoundUpdate): seq<Bounds>
    requires 0 <= u.index < |t|
  {
    t[u.index := Tighten(t[u.index], u)]
  }

  /** The table after a sequence of updates, issued in order. */
  function ApplyAll(t: seq<Bounds>, us: seq<BoundUpdate>): (r: seq<Bounds>)
    requires TargetsWithin(us, |t|)
    ensures |r| == |t|
  {
    if us == [] then t else Apply(ApplyAll(t, us[..|us| - 1]), us[|us| - 1])
  }

  /** One more update is applied to the table the earlier ones left. */
  lemma ApplyAllSnoc(t: seq<Bounds>, us: seq<BoundUpdate>, u: BoundUpdate)
    requires TargetsWithin(us + [u], |t|)
    ensures TargetsWithin(us, |t|) && 0 <= u.index < |t|
    ensures ApplyAll(t, us + [u]) == Apply(ApplyAll(t, us), u)
  {
    assert (us + [u])[|us|] == u;
    assert forall k :: 0 <= k < |us| ==> us[k] == (us + [u])[k];
    assert (us + [u])[..|us|] == us;
  }

  /** A variable that no update names keeps its domain. */
  lemma {:induction false} ApplyAllFrame(t: seq<Bounds>, us: seq<BoundUpdate>, i: int)
    requires TargetsWithin(us, |t|) && 0 <= i < |t|
    requires forall k :: 0 <= k < |us| ==> us[k].index != i
    ensures ApplyAll(t, us)[i] == t[i]
  {
    if us != [] {
      ApplyAllFrame(t, us[..|us| - 1], i);
    }
  }

  /** Updates only tighten: no variable's min decreases and no max increases. */
  lemma {:induction false} ApplyAllNarrows(t: seq<Bounds>, us: seq<BoundUpdate>, i: int)
    requires TargetsWithin(us, |t|) && 0 <= i < |t|
    ensures Narrower(ApplyAll(t, us)[i], t[i])
  {
    if us != [] {
      ApplyAllNarrows(t, us[..|us| - 1], i);
    }
  }

  /** The order-independent meaning of a sequence of updates: each variable's final
      domain is its initial domain intersected with every update that names it. */
  lemma {:induction false} ApplyAllDomain(t: seq<Bounds>, us: seq<BoundUpdate>, i: int, x: int)
    requires TargetsWithin(us, |t|) && 0 <= i < |t|
    ensures InDomain(ApplyAll(t, us)[i], x) <==>
              InDomain(t[i], x) && forall k :: 0 <= k < |us| && us[k].index == i ==> Allows(us[k], x)
  {
    if us != [] {
      var front, last := us[..|us| - 1], us[|us| - 1];
      ApplyAllDomain(t, front, i, x);
      assert forall k :: 0 <= k < |front| ==> front[k] == us[k];
      if forall k :: 0 <= k < |us| && us[k].index == i ==> Allows(us[k], x) {
        assert forall k :: 0 <= k < |front| && front[k].index == i ==> Allows(front[k], x);
      }
    }
  }

  /** Every update is honoured by the final table: the variable it names ends up
      inside the requested bounds (min at least `lo`, max at most `hi`). */
  lemma {:induction false} ApplyAllHonours(t: seq<Bounds>, us: seq<BoundUpdate>, k: int)
    requires TargetsWithin(us, |t|) && 0 <= k < |us|
    ensures Honours(us[k], ApplyAll(t, us)[us[k].index])
  {
    var front := us[..|us| - 1];
    if k < |us| - 1 {
      assert front[k] == us[k];
      ApplyAllHonours(t, front, k);
      ApplyAllNarrows(ApplyAll(t, front), [us[|us| - 1]], us[k].index);
    }
  }

  /** A variable named by exactly one update ends with exactly that update's
      tightening of its initial domain. */
  lemma {:induction false} ApplyAllSingle(t: seq<Bounds>, us: seq<BoundUpdate>, k: int)
    requires TargetsWithin(us, |t|) && 0 <= k < |us|
    requires forall j :: 0 <= j < |us| && j != k ==> us[j].index != us[k].index
    ensures ApplyAll(t, us)[us[k].index] == Tighten(t[us[k].index], us[k])
  {
    var front := us[..|us| - 1];
    if k == |us| - 1 {
      ApplyAllFrame(t, front, us[k].index);
    } else {
      assert front[k] == us[k];
      ApplyAllSingle(t, front, k);
    }
  }

  /** Running updates in two batches is running them all in order. */
  lemma {:induction false} ApplyAllAppend(t: seq<Bounds>, us: seq<BoundUpdate>, ws: seq<BoundUpdate>)
    requires TargetsWithin(us, |t|) && TargetsWithin(ws, |t|)
    ensures TargetsWithin(us + ws, |t|)
    ensures ApplyAll(ApplyAll(t, us), ws) == ApplyAll(t, us + ws)
    decreases |ws|
  {
    if ws != [] {
      var front := ws[..|ws| - 1];
      ApplyAllAppend(t, us, front);
      assert (us + ws)[..|us + ws| - 1] == us + front;
    } else {
      assert us + ws == us;
    }
  }

  /** The cumul variables of the "TotalTime" dimension, one per routing index,
      each tightened in place by the setters. */
  class TotalTimeDimension {
    var cumul: seq<Bounds>

    /** `addDimension` with the given capacity: every cumul starts as `[0, capacity]`. */
    constructor (indexCount: nat, capacity: int)
      ensures cumul == Unconstrained(indexCount, capacity)
    {
      cumul := Unconstrained(indexCount, capacity);
    }

    /** `cumulVar(index).setRange(lo, hi)`. */
    method SetRange(index: int, lo: int, hi: int)
      requires 0 <= index < |cumul|
      modifies this
      ensures cumul == Apply(old(cumul), RangeUpdate(index, lo, hi))
    {
      cumul := cumul[index := Tighten(cumul[index], RangeUpdate(index, lo, hi))];
    }

    /** `cumulVar(index).setMin(lo)`. */
    method SetMin(index: int, lo: int)
      requires 0 <= index < |cumul|
      modifies this
      ensures cumul == Apply(old(cumul), MinUpdate(index, lo))
    {
      cumul := cumul[index := Tighten(cumul[index], MinUpdate(index, lo))];
    }

    /** `cumulVar(index).setMax(hi)`. */
    method SetMax(index: int, hi: int)
      requires 0 <= index < |cumul|
      modifies this
      ensures cumul == Apply(old(cumul), MaxUpdate(index, hi))
    {
      cumul := cumul[index := Tighten(cumul[index], MaxUpdate(index, hi))];
    }
  }
}
