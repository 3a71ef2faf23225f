/**
  * The Experience timeline's accordion: one `active` flag per timeline item. The item built
  * from table row 0 starts active; a click clears every other item and toggles the clicked one.
  */
module Accordion {
  import opened Sheet
  import opened Sections

  /** No two items are active at once. */
  predicate AtMostOneActive(active: seq<bool>)
  {
    forall a, b :: 0 <= a < |active| && 0 <= b < |active| && active[a] && active[b] ==> a == b
  }

  /** The flags after rendering, for items built from the given table rows (in item order). */
  function InitialActive(rows: seq<nat>): (active: seq<bool>)
    ensures |active| == |rows|
  {
    seq(|rows|, k requires 0 <= k < |rows| => rows[k] == 0)
  }

  /** Items come from distinct rows, so at most one of them is row 0's. */
  lemma InitialAtMostOne(rows: seq<nat>)
    requires forall a, b :: 0 <= a < b < |rows| ==> rows[a] < rows[b]
    ensures AtMostOneActive(InitialActive(rows))
  {
  }

  /** Strictly increasing row numbers are at least their position, so only the first can be row 0. */
  lemma {:induction false} IncreasingAtLeastIndex(rows: seq<nat>, k: nat)
    requires forall a, b :: 0 <= a < b < |rows| ==> rows[a] < rows[b]
    requires k < |rows|
    ensures rows[k] >= k
  {
    if k > 0 {
      IncreasingAtLeastIndex(rows, k - 1);
      assert rows[k - 1] < rows[k];
    }
  }

  /** Some item starts active exactly when row 0 produced an item, and then it is the first item. */
  lemma InitialActiveIsRowZero(rows: seq<nat>)
    requires forall a, b :: 0 <= a < b < |rows| ==> rows[a] < rows[b]
    ensures (exists k :: 0 <= k < |rows| && InitialActive(rows)[k]) <==> 0 in rows
    ensures forall k :: 0 <= k < |rows| && InitialActive(rows)[k] ==> k == 0
  {
    var flags := InitialActive(rows);
    if 0 in rows {
      var k :| 0 <= k < |rows| && rows[k] == 0;
      assert flags[k];
    }
    forall k | 0 <= k < |rows| && flags[k] ensures k == 0 && rows[k] == 0 {
      IncreasingAtLeastIndex(rows, k);
    }
  }

  /** The flags after clicking item `i`. */
  function AfterClick(active: seq<bool>, i: nat): (r: seq<bool>)
    requires i < |active|
    ensures |r| == |active|
    ensures AtMostOneActive(r)
  {
    seq(|active|, j requires 0 <= j < |active| => if j == i then !active[i] else false)
  }

  /** Clicking the active item collapses it, leaving no item active. */
  lemma ClickActiveCollapsesAll(active: seq<bool>, i: nat)
    requires i < |active| && active[i]
    ensures forall j :: 0 <= j < |active| ==> !AfterClick(active, i)[j]
  {
  }

  /** Clicking an inactive item makes it the only active one, whatever was active before. */
  lemma ClickInactiveExpandsOnlyIt(active: seq<bool>, i: nat)
    requires i < |active| && !active[i]
    ensures forall j :: 0 <= j < |active| ==> (AfterClick(active, i)[j] <==> j == i)
  {
  }

  /** Opening an inactive item and clicking it again leaves nothing active. */
  lemma DoubleClickCollapses(active: seq<bool>, i: nat)
    requires i < |active| && !active[i]
    ensures forall j :: 0 <= j < |active| ==> !AfterClick(AfterClick(active, i), i)[j]
  {
    ClickInactiveExpandsOnlyIt(active, i);
    ClickActiveCollapsesAll(AfterClick(active, i), i);
  }

  /** The timeline's items with their `active` classes. */
  class Timeline {
    var active: array<bool>

    /** Renders the items for the given rows; only row 0's item gets the `active` class. */
    constructor (rows: seq<nat>)
      ensures fresh(active)
      ensures active[..] == InitialActive(rows)
    {
      var flags := new bool[|rows|];
      var k := 0;
      while k < |rows|
        invariant 0 <= k <= |rows|
        invariant forall j :: 0 <= j < k ==> flags[j] == (rows[j] == 0)
      {
        flags[k] := rows[k] == 0;
        k := k + 1;
      }
      active := flags;
    }

    /** The click handler of item `i`. */
    method Click(i: nat)
      requires i < active.Length
      modifies active
      ensures active[..] == AfterClick(old(active[..]), i)
    {
      var j := 0;
      while j < active.Length
        invariant 0 <= j <= active.Length
        invariant forall m :: 0 <= m < j ==> active[m] == (old(active[m]) && m == i)
        invariant forall m :: j <= m < active.Length ==> active[m] == old(active[m])
      {
        if active[j] && j != i {
          active[j] := false;
        }
        j := j + 1;
      }
      active[i] := !active[i];
    }
  }

  /**
    * After the Experience section renders, at most one item is active, and one is exactly when
    * table row 0 produced an item; that item is then the first one.
    */
  lemma ExperienceInitialExpansion(t: Table)
    ensures AtMostOneActive(InitialActive(KeptIndices(Experience, t)))
    ensures (exists k :: 0 <= k < |KeptIndices(Experience, t)| && InitialActive(KeptIndices(Experience, t))[k]) <==>
            |t| > 0 && Keep(Experience, t[0])
  {
    var rows := KeptIndices(Experience, t);
    InitialAtMostOne(rows);
    InitialActiveIsRowZero(rows);
    RowZeroKept(Experience, t);
  }
}
