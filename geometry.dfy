/**
 * Pane geometry: the layout record the host editor uses to split a window
 * into groups, and the pure transformations the plugin computes on it
 * (collapsing onto one pane, evenly distributing the boundaries).
 *
 * Boundaries are exact reals: the plugin only ever writes 0.0, 1.0, 0.5
 * and i/(n-1), and compares them with the literals 0.0 and 1.0.
 */
module Geometry {
  import opened Wrappers

  /** A group's cell: indices into the column and row boundary lists. */
  datatype Cell = Cell(colStart: int, rowStart: int, colEnd: int, rowEnd: int)

  /** A window layout: column boundaries, row boundaries and one cell per group. */
  datatype Layout = Layout(cols: seq<real>, rows: seq<real>, cells: seq<Cell>)

  /** The layout the plugin enforces: two columns side by side, one row. */
  const TwoColLayout: Layout :=
    Layout([0.0, 0.5, 1.0], [0.0, 1.0], [Cell(0, 0, 1, 1), Cell(1, 0, 2, 1)])

  ghost predicate NonDecreasing(s: seq<real>)
  {
    forall i, j :: 0 <= i <= j < |s| ==> s[i] <= s[j]
  }

  ghost predicate StrictlyIncreasing(s: seq<real>)
  {
    forall i, j :: 0 <= i < j < |s| ==> s[i] < s[j]
  }

  /** The cell names boundaries that exist and spans at least one column and one row. */
  ghost predicate CellFits(c: Cell, l: Layout)
  {
    && 0 <= c.colStart < c.colEnd < |l.cols|
    && 0 <= c.rowStart < c.rowEnd < |l.rows|
  }

  // ---------------------------------------------------------------- maximize

  /** Every boundary whose index is below `cut` collapses to 0.0, every other one to 1.0. */
  function Collapse(bounds: seq<real>, cut: int): (r: seq<real>)
    ensures |r| == |bounds|
  {
    seq(|bounds|, i => if i < cut then 0.0 else 1.0)
  }

  /**
   * The layout the maximize command applies while group `g` is active: the
   * cuts are the END indices of the active cell, cells are kept.
   */
  function MaximizedLayout(l: Layout, g: nat): (r: Layout)
    requires g < |l.cells|
    ensures |r.cols| == |l.cols| && |r.rows| == |l.rows| && r.cells == l.cells
  {
    Layout(Collapse(l.cols, l.cells[g].colEnd), Collapse(l.rows, l.cells[g].rowEnd), l.cells)
  }

  /** A collapsed axis only holds 0.0 and 1.0, zeros first: it is sorted. */
  lemma CollapseIsSorted(bounds: seq<real>, cut: int)
    ensures NonDecreasing(Collapse(bounds, cut))
    ensures forall i :: 0 <= i < |bounds| ==>
              (Collapse(bounds, cut)[i] == 0.0 <==> i < cut) &&
              (Collapse(bounds, cut)[i] == 1.0 <==> cut <= i)
  {
  }

  /**
   * After maximizing, the active cell's start boundaries are 0.0 and its end
   * boundaries 1.0 on both axes: the active pane covers the whole window.
   */
  lemma MaximizeFillsWindow(l: Layout, g: nat)
    requires g < |l.cells| && CellFits(l.cells[g], l)
    ensures var m, c := MaximizedLayout(l, g), l.cells[g];
      && m.cols[c.colStart] == 0.0 && m.cols[c.colEnd] == 1.0
      && m.rows[c.rowStart] == 0.0 && m.rows[c.rowEnd] == 1.0
  {
  }

  // ------------------------------------------------------- looks maximized

  /** The values that occur among the column and row boundaries. */
  function BoundaryValues(l: Layout): set<real>
  {
    set x | x in l.cols + l.rows
  }

  /** More than one group, and the boundaries take exactly the values 0.0 and 1.0. */
  predicate LooksMaximized(l: Layout, numGroups: int)
  {
    numGroups > 1 && BoundaryValues(l) == {0.0, 1.0}
  }

  /**
   * The set comparison spelled out: some boundary is 0.0, some boundary is
   * 1.0, and no boundary is anything else.
   */
  lemma LooksMaximizedIff(l: Layout, numGroups: int)
    ensures LooksMaximized(l, numGroups) <==>
      && numGroups > 1
      && 0.0 in l.cols + l.rows
      && 1.0 in l.cols + l.rows
      && forall x :: x in l.cols + l.rows ==> x == 0.0 || x == 1.0
  {
    var b := l.cols + l.rows;
    if numGroups > 1 && 0.0 in b && 1.0 in b && forall x :: x in b ==> x == 0.0 || x == 1.0 {
      assert BoundaryValues(l) == {0.0, 1.0} by {
        assert 0.0 in BoundaryValues(l) && 1.0 in BoundaryValues(l);
      }
    }
    if LooksMaximized(l, numGroups) {
      forall x | x in b ensures x == 0.0 || x == 1.0 {
        assert x in BoundaryValues(l);
      }
      assert 0.0 in BoundaryValues(l) && 1.0 in BoundaryValues(l);
    }
  }

  /**
   * A window of several groups whose active cell fits its layout looks
   * maximized once the maximize transformation is applied.
   */
  lemma MaximizedLooksMaximized(l: Layout, g: nat)
    requires g < |l.cells| && CellFits(l.cells[g], l) && |l.cells| > 1
    ensures LooksMaximized(MaximizedLayout(l, g), |l.cells|)
  {
    var m := MaximizedLayout(l, g);
    var c := l.cells[g];
    assert m.cols[c.colStart] == 0.0 && m.cols[c.colEnd] == 1.0;
    assert m.cols[c.colStart] in m.cols + m.rows;
    assert m.cols[c.colEnd] in m.cols + m.rows;
    forall x | x in m.cols + m.rows ensures x == 0.0 || x == 1.0 {
      var k :| 0 <= k < |m.cols + m.rows| && (m.cols + m.rows)[k] == x;
      if k < |m.cols| {
        assert x == m.cols[k];
      } else {
        assert x == m.rows[k - |m.cols|];
      }
    }
    LooksMaximizedIff(m, |l.cells|);
  }

  // ------------------------------------------------------------ distribute

  /**
   * Respace `values` evenly over [0, 1]: element i becomes i/(n-1). With one
   * element the plugin divides by zero, which is the None result; with none
   * it returns the empty list without dividing.
   */
  function Distribute(values: seq<real>): (r: Option<seq<real>>)
    ensures r.Some? <==> |values| != 1
    ensures r.Some? ==> |r.value| == |values|
  {
    if |values| == 1 then None
    else Some(seq(|values|, i => i as real / (|values| - 1) as real))
  }

  /**
   * With at least two boundaries the result starts at 0.0, ends at 1.0,
   * consecutive boundaries are 1/(n-1) apart, and it is strictly increasing.
   */
  lemma DistributeIsEven(values: seq<real>)
    requires |values| >= 2
    ensures var r, n := Distribute(values).value, |values|;
      && r[0] == 0.0 && r[n - 1] == 1.0
      && (forall i :: 0 <= i < n - 1 ==> r[i + 1] - r[i] == 1.0 / (n - 1) as real)
      && StrictlyIncreasing(r)
  {
    var r, n := Distribute(values).value, |values|;
    var d := (n - 1) as real;
    forall i | 0 <= i < n - 1 ensures r[i + 1] - r[i] == 1.0 / d {
      QuotientDifference((i + 1) as real, i as real, d);
    }
    forall i, j | 0 <= i < j < n ensures r[i] < r[j] {
      QuotientDifference(j as real, i as real, d);
    }
  }

  /** Dividing by a positive number distributes over a difference and keeps its sign. */
  lemma QuotientDifference(a: real, b: real, d: real)
    requires d > 0.0
    ensures a / d - b / d == (a - b) / d
    ensures b < a ==> b / d < a / d
  {
    assert a / d * d == a && b / d * d == b;
    assert (a / d - b / d) * d == a - b;
    if b < a {
      assert (a - b) / d > 0.0;
    }
  }

  /** Distributing an already distributed axis changes nothing. */
  lemma DistributeIdempotent(values: seq<real>)
    requires |values| != 1
    ensures Distribute(Distribute(values).value) == Distribute(values)
  {
  }

  /**
   * The distribute command's layout: rows first, then columns, cells kept.
   * None when either axis has a single boundary (the division by zero).
   */
  function DistributedLayout(l: Layout): (r: Option<Layout>)
    ensures r.Some? <==> |l.rows| != 1 && |l.cols| != 1
    ensures r.Some? ==> |r.value.cols| == |l.cols| && |r.value.rows| == |l.rows| && r.value.cells == l.cells
  {
    match Distribute(l.rows)
    case None => None
    case Some(rows) =>
      match Distribute(l.cols)
      case None => None
      case Some(cols) => Some(Layout(cols, rows, l.cells))
  }

  /**
   * When an axis has at least three boundaries, distributing it puts 1/(n-1),
   * strictly between 0 and 1, among the boundaries: the result no longer
   * looks maximized.
   */
  lemma DistributedNoLongerLooksMaximized(l: Layout, numGroups: int)
    requires DistributedLayout(l).Some?
    requires |l.cols| >= 3 || |l.rows| >= 3
    ensures !LooksMaximized(DistributedLayout(l).value, numGroups)
  {
    var d := DistributedLayout(l).value;
    var x: real;
    if |l.cols| >= 3 {
      x := d.cols[1];
      assert x == 1.0 / (|l.cols| - 1) as real;
      assert x in d.cols + d.rows;
    } else {
      x := d.rows[1];
      assert x == 1.0 / (|l.rows| - 1) as real;
      assert x in d.cols + d.rows;
    }
    assert 0.0 < x < 1.0;
    LooksMaximizedIff(d, numGroups);
  }
}
