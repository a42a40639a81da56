/**
 * The plugin's commands and event handlers as they run: a host window whose
 * layout and focus are set in place, the pane manager whose maps and lock
 * set are updated in place, and one method per command. Each method is
 * proved to move the state exactly as its step function in Transitions.
 */
module Plugin {
  import opened Wrappers
  import opened Geometry
  import opened PaneStore
  import opened Focus
  import opened Transitions

  /** A host window. Its id never changes; the host reports one group per cell. */
  class Window {
    const id: WindowId
    var layout: Layout
    var numGroups: nat
    var activeGroup: nat

    ghost predicate Valid()
      reads this
    {
      numGroups == |layout.cells|
    }

    function Snapshot(): Win
      reads this
    {
      Win(id, layout, activeGroup)
    }

    constructor (id: WindowId, layout: Layout, activeGroup: nat)
      ensures Valid() && Snapshot() == Win(id, layout, activeGroup)
    {
      this.id := id;
      this.layout := layout;
      this.numGroups := |layout.cells|;
      this.activeGroup := activeGroup;
    }

    /** The host applies a layout; the group count follows its cells. */
    method SetLayout(l: Layout)
      modifies this
      ensures Valid() && Snapshot() == old(Snapshot()).(layout := l)
    {
      layout := l;
      numGroups := |l.cells|;
    }

    /** The host moves focus to group `g`. */
    method FocusGroup(g: nat)
      requires Valid()
      modifies this
      ensures Valid() && Snapshot() == old(Snapshot()).(activeGroup := g)
    {
      activeGroup := g;
    }
  }

  /** The process-wide maximize state, shared by every command and listener. */
  class PaneManager {
    var layouts: map<WindowId, Layout>
    var maxgroup: map<WindowId, nat>
    var lockWnds: set<WindowId>

    function Model(): PaneState
      reads this
    {
      PaneState(layouts, maxgroup, lockWnds)
    }

    ghost predicate Valid()
      reads this
    {
      Model().Valid()
    }

    constructor ()
      ensures Valid() && Model() == PaneState(map[], map[], {})
    {
      layouts, maxgroup, lockWnds := map[], map[], {};
    }

    /** Save the window's current layout and active group, overwriting any earlier record. */
    method StoreLayout(w: Window)
      requires Valid()
      modifies this
      ensures Valid() && Model() == old(Model()).Stored(w.id, w.layout, w.activeGroup)
    {
      layouts := layouts[w.id := w.layout];
      maxgroup := maxgroup[w.id := w.activeGroup];
    }

    /** Return the saved layout and delete the record; both deletions raise on a missing key. */
    method PopLayout(w: Window) returns (l: Layout)
      requires w.id in layouts && w.id in maxgroup
      modifies this
      ensures (l, Model()) == old(Model()).Popped(w.id)
    {
      l := layouts[w.id];
      layouts := layouts - {w.id};
      maxgroup := maxgroup - {w.id};
    }
  }

  /**
   * One axis of the maximize command: boundary `index` becomes 0.0 when it
   * lies before `cut` and 1.0 otherwise.
   */
  method CollapseAxis(bounds: seq<real>, cut: int) returns (r: seq<real>)
    ensures |r| == |bounds|
    ensures forall i :: 0 <= i < |r| ==> r[i] == if i < cut then 0.0 else 1.0
  {
    r := [];
    var index := 0;
    while index < |bounds|
      invariant index <= |bounds| && |r| == index
      invariant forall i :: 0 <= i < index ==> r[i] == if i < cut then 0.0 else 1.0
    {
      r := r + [if index < cut then 0.0 else 1.0];
      index := index + 1;
    }
  }

  /** The maximize command. */
  method MaximizePane(pm: PaneManager, w: Window)
    requires pm.Valid() && w.Valid()
    modifies pm, w
    ensures pm.Valid() && w.Valid()
    ensures (pm.Model(), w.Snapshot()) == MaximizeStep(old(pm.Model()), old(w.Snapshot()))
  {
    var g := w.activeGroup;
    var l := w.layout;
    pm.StoreLayout(w);
    if g >= |l.cells| {
      // the cell lookup raises: the record stays saved and no layout is applied
      return;
    }
    var currentCol := l.cells[g].colEnd;
    var currentRow := l.cells[g].rowEnd;
    var newRows := CollapseAxis(l.rows, currentRow);
    var newCols := CollapseAxis(l.cols, currentCol);
    assert newRows == Collapse(l.rows, currentRow);
    assert newCols == Collapse(l.cols, currentCol);
    w.SetLayout(Layout(newCols, newRows, l.cells));
  }

  /** The distribute command; a division by zero stops it before any layout is applied. */
  method DistributeLayout(w: Window)
    requires w.Valid()
    modifies w
    ensures w.Valid() && w.Snapshot() == DistributeStep(old(w.Snapshot()))
  {
    var rows := Distribute(w.layout.rows);
    if rows.None? {
      return;
    }
    var cols := Distribute(w.layout.cols);
    if cols.None? {
      return;
    }
    w.SetLayout(Layout(cols.value, rows.value, w.layout.cells));
  }

  /** The unmaximize command. */
  method UnmaximizePane(pm: PaneManager, w: Window)
    requires pm.Valid() && w.Valid()
    modifies pm, w
    ensures pm.Valid() && w.Valid()
    ensures (pm.Model(), w.Snapshot()) == UnmaximizeStep(old(pm.Model()), old(w.Snapshot()))
  {
    if w.id in pm.layouts {
      var l := pm.PopLayout(w);
      w.SetLayout(l);
    } else if LooksMaximized(w.layout, w.numGroups) {
      DistributeLayout(w);
    }
  }

  /** The toggle command: unmaximize and unlock, or lock and maximize. */
  method ToggleMaxPane(pm: PaneManager, w: Window)
    requires pm.Valid() && w.Valid()
    modifies pm, w
    ensures pm.Valid() && w.Valid()
    ensures (pm.Model(), w.Snapshot()) == ToggleStep(old(pm.Model()), old(w.Snapshot()))
  {
    if IsWindowMaximized(pm.Model(), w.Snapshot()) {
      UnmaximizePane(pm, w);
      pm.lockWnds := pm.lockWnds - {w.id};
    } else if w.numGroups > 1 {
      pm.lockWnds := pm.lockWnds + {w.id};
      MaximizePane(pm, w);
    }
  }

  /** The shift command: focus the next group, wrapping to the first. */
  method ShiftPane(w: Window)
    requires w.Valid()
    modifies w
    ensures w.Valid()
    ensures w.Snapshot() == old(w.Snapshot()).(activeGroup := ShiftTarget(old(w.activeGroup), old(w.numGroups)))
  {
    w.FocusGroup(ShiftTarget(w.activeGroup, w.numGroups));
  }

  /** The unshift command: focus the previous group, wrapping to the last. */
  method UnshiftPane(w: Window)
    requires w.Valid() && w.numGroups >= 1
    modifies w
    ensures w.Valid()
    ensures w.Snapshot() == old(w.Snapshot()).(activeGroup := UnshiftTarget(old(w.activeGroup), old(w.numGroups)))
  {
    w.FocusGroup(UnshiftTarget(w.activeGroup, w.numGroups));
  }

  /**
   * A view was activated in window `w` (null when the host has none): keep
   * a maximized window maximized onto the group that now has focus.
   */
  method OnActivated(pm: PaneManager, w: Window?)
    requires pm.Valid() && (w != null ==> w.Valid())
    modifies pm, w
    ensures pm.Valid()
    ensures w == null ==> pm.Model() == old(pm.Model())
    ensures w != null ==>
      && w.Valid()
      && (pm.Model(), w.Snapshot()) == ActivatedStep(old(pm.Model()), old(w.Snapshot()))
  {
    if w != null && IsWindowMaximized(pm.Model(), w.Snapshot()) {
      if pm.Model().MaxedGroup(w.id) != Some(w.activeGroup) {
        UnmaximizePane(pm, w);
        MaximizePane(pm, w);
      }
    }
  }

  /**
   * A file was opened or loaded in window `w` (null when the view has no
   * window): apply the two-column policy.
   */
  method SetTwoColumns(pm: PaneManager, w: Window?)
    requires w != null ==> w.Valid()
    modifies w
    ensures w != null ==> w.Valid() && w.Snapshot() == TwoColumnsStep(pm.Model(), old(w.Snapshot()))
  {
    if w == null {
      return;
    }
    if w.layout != TwoColLayout && w.id !in pm.lockWnds {
      w.SetLayout(TwoColLayout);
    }
  }
}
