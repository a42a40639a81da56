/**
 * What each command and event handler does to the plugin state and to one
 * window, as pure functions from the state and window before to the state
 * and window after. The imperative commands in module Plugin are proved to
 * follow these; the lemmas here state what the commands promise.
 */
module Transitions {
  import opened Wrappers
  import opened Geometry
  import opened PaneStore

  /**
   * Maximize: save the layout and active group, then collapse the layout
   * onto the active cell. Reading the active cell raises when the group has
   * no cell; the record is saved by then and the layout is not applied.
   */
  function MaximizeStep(s: PaneState, w: Win): (r: (PaneState, Win))
    ensures s.Valid() ==> r.0.Valid()
    ensures r.1.id == w.id && r.1.activeGroup == w.activeGroup
  {
    var s' := s.Stored(w.id, w.layout, w.activeGroup);
    if w.activeGroup < w.NumGroups() then
      (s', w.(layout := MaximizedLayout(w.layout, w.activeGroup)))
    else
      (s', w)
  }

  /** Distribute: the evenly spaced layout, or no change when it raises. */
  function DistributeStep(w: Win): Win
  {
    match DistributedLayout(w.layout)
    case Some(l) => w.(layout := l)
    case None => w
  }

  /**
   * Unmaximize: restore and drop the saved record if there is one; else, if
   * the window only looks maximized, distribute its layout; else nothing.
   */
  function UnmaximizeStep(s: PaneState, w: Win): (r: (PaneState, Win))
    requires s.Valid()
    ensures r.0.Valid()
    ensures r.1.id == w.id && r.1.activeGroup == w.activeGroup
  {
    if s.HasLayout(w.id) then
      var (l, s') := s.Popped(w.id);
      (s', w.(layout := l))
    else if LooksMaximized(w.layout, w.NumGroups()) then
      (s, DistributeStep(w))
    else
      (s, w)
  }

  /**
   * Toggle: a maximized window is unmaximized and unlocked; otherwise a
   * window of several groups is locked and maximized; otherwise nothing.
   */
  function ToggleStep(s: PaneState, w: Win): (r: (PaneState, Win))
    requires s.Valid()
    ensures r.0.Valid()
  {
    if IsWindowMaximized(s, w) then
      var (s', w') := UnmaximizeStep(s, w);
      (s'.Unlocked(w.id), w')
    else if w.NumGroups() > 1 then
      MaximizeStep(s.Locked(w.id), w)
    else
      (s, w)
  }

  /**
   * Focus moved to another view: a maximized window whose active group is
   * not the saved one (or has no saved group at all) is unmaximized and
   * maximized again, now onto the active group.
   */
  function ActivatedStep(s: PaneState, w: Win): (r: (PaneState, Win))
    requires s.Valid()
    ensures r.0.Valid()
  {
    if IsWindowMaximized(s, w) && s.MaxedGroup(w.id) != Some(w.activeGroup) then
      var (s', w') := UnmaximizeStep(s, w);
      MaximizeStep(s', w')
    else
      (s, w)
  }

  /** The two-column policy: force the two-column layout unless the window is locked. */
  function TwoColumnsStep(s: PaneState, w: Win): Win
  {
    if w.layout != TwoColLayout && w.id !in s.lockWnds then w.(layout := TwoColLayout) else w
  }

  // ---------------------------------------------------------------- maximize

  /**
   * Maximize saves the pre-maximize layout and group, touches nothing else
   * in the state, keeps the shape of the layout, and leaves boundaries that
   * are sorted and all 0.0 or 1.0, cut at the active cell's end indices.
   */
  lemma MaximizeStepEffect(s: PaneState, w: Win)
    requires w.activeGroup < w.NumGroups()
    ensures var (s', w') := MaximizeStep(s, w);
      && s'.layouts == s.layouts[w.id := w.layout]
      && s'.maxgroup == s.maxgroup[w.id := w.activeGroup]
      && s'.lockWnds == s.lockWnds
      && |w'.layout.cols| == |w.layout.cols| && |w'.layout.rows| == |w.layout.rows|
      && w'.layout.cells == w.layout.cells
      && NonDecreasing(w'.layout.cols) && NonDecreasing(w'.layout.rows)
      && (forall i :: 0 <= i < |w'.layout.cols| ==>
            w'.layout.cols[i] == if i < w.layout.cells[w.activeGroup].colEnd then 0.0 else 1.0)
      && (forall i :: 0 <= i < |w'.layout.rows| ==>
            w'.layout.rows[i] == if i < w.layout.cells[w.activeGroup].rowEnd then 0.0 else 1.0)
  {
  }

  /**
   * When the active group has no cell, reading it raises after the record is
   * saved: the record stays and the window keeps its layout.
   */
  lemma MaximizeStepWithoutCell(s: PaneState, w: Win)
    requires w.activeGroup >= w.NumGroups()
    ensures MaximizeStep(s, w) == (s.Stored(w.id, w.layout, w.activeGroup), w)
    ensures MaximizeStep(s, w).0.layouts == s.layouts[w.id := w.layout]
    ensures MaximizeStep(s, w).0.maxgroup == s.maxgroup[w.id := w.activeGroup]
  {
  }

  // -------------------------------------------------------------- unmaximize

  /**
   * With a saved record, unmaximize puts back exactly the saved layout and
   * deletes the record; the lock set and other windows are untouched.
   */
  lemma UnmaximizeRestores(s: PaneState, w: Win)
    requires s.Valid() && s.HasLayout(w.id)
    ensures var (s', w') := UnmaximizeStep(s, w);
      && w' == w.(layout := s.layouts[w.id])
      && !s'.HasLayout(w.id) && s'.MaxedGroup(w.id) == None
      && s'.layouts == s.layouts - {w.id}
      && s'.maxgroup == s.maxgroup - {w.id}
      && s'.lockWnds == s.lockWnds
  {
  }

  /**
   * Without a record, a window that looks maximized is handed to distribute
   * and the state is left alone. Distributing keeps the cells; it changes
   * nothing when an axis has a single boundary (it raises there). When
   * neither axis has a single boundary and one has three or more, the window
   * is no longer maximized afterwards.
   */
  lemma UnmaximizeFallsBackToDistribute(s: PaneState, w: Win)
    requires s.Valid() && !s.HasLayout(w.id) && LooksMaximized(w.layout, w.NumGroups())
    ensures UnmaximizeStep(s, w) == (s, DistributeStep(w))
    ensures DistributeStep(w).layout.cells == w.layout.cells
    ensures (|w.layout.cols| == 1 || |w.layout.rows| == 1) ==> DistributeStep(w) == w
    ensures && |w.layout.cols| != 1 && |w.layout.rows| != 1
            && (|w.layout.cols| >= 3 || |w.layout.rows| >= 3)
            ==> !IsWindowMaximized(s, DistributeStep(w))
  {
    if && |w.layout.cols| != 1 && |w.layout.rows| != 1
       && (|w.layout.cols| >= 3 || |w.layout.rows| >= 3) {
      DistributedNoLongerLooksMaximized(w.layout, w.NumGroups());
    }
  }

  /** A window that is not maximized is left as it is, and so is the state. */
  lemma UnmaximizeOnNormalWindow(s: PaneState, w: Win)
    requires s.Valid() && !IsWindowMaximized(s, w)
    ensures UnmaximizeStep(s, w) == (s, w)
  {
  }

  // ------------------------------------------------------------------ toggle

  /**
   * Toggle on a maximized window: unmaximize it (restore the saved layout, or
   * distribute a window that only looks maximized), drop its record and
   * unlock it; other windows' records and locks are kept.
   */
  lemma ToggleOnMaximized(s: PaneState, w: Win)
    requires s.Valid() && IsWindowMaximized(s, w)
    ensures var (s', w') := ToggleStep(s, w);
      && s'.lockWnds == s.lockWnds - {w.id}
      && s'.layouts == s.layouts - {w.id}
      && s'.maxgroup == s.maxgroup - {w.id}
      && w' == (if s.HasLayout(w.id) then w.(layout := s.layouts[w.id]) else DistributeStep(w))
  {
  }

  /**
   * Toggle on a normal window of several groups: lock it and save its record,
   * after which the window counts as maximized.
   */
  lemma ToggleOnNormal(s: PaneState, w: Win)
    requires s.Valid() && !IsWindowMaximized(s, w) && w.NumGroups() > 1
    ensures var (s', w') := ToggleStep(s, w);
      && s'.lockWnds == s.lockWnds + {w.id}
      && s'.layouts == s.layouts[w.id := w.layout]
      && s'.maxgroup == s.maxgroup[w.id := w.activeGroup]
      && (w.activeGroup < w.NumGroups() ==> w'.layout == MaximizedLayout(w.layout, w.activeGroup))
      && IsWindowMaximized(s', w')
  {
  }

  /** Toggle on a normal window of one group changes nothing. */
  lemma ToggleOnSingleGroup(s: PaneState, w: Win)
    requires s.Valid() && !IsWindowMaximized(s, w) && w.NumGroups() <= 1
    ensures ToggleStep(s, w) == (s, w)
  {
  }

  /**
   * Toggling a normal window of several groups twice brings back its layout
   * and the whole state, except that the window is no longer locked.
   */
  lemma ToggleTwiceRestores(s: PaneState, w: Win)
    requires s.Valid() && !IsWindowMaximized(s, w) && w.NumGroups() > 1
    ensures var (s1, w1) := ToggleStep(s, w);
      ToggleStep(s1, w1) == (s.Unlocked(w.id), w)
  {
    var (s1, w1) := ToggleStep(s, w);
    assert IsWindowMaximized(s1, w1);
    var t := s.Locked(w.id);
    StoreThenPopRestores(t, w.id, w.layout, w.activeGroup);
    assert s1 == t.Stored(w.id, w.layout, w.activeGroup);
    assert UnmaximizeStep(s1, w1) == (t, w);
    assert t.Unlocked(w.id).lockWnds == s.Unlocked(w.id).lockWnds;
  }

  /**
   * Three groups side by side, the middle one active: toggling collapses the
   * columns to [0, 0, 1, 1], and toggling again restores the original columns.
   */
  lemma ToggleThreeColumns(s: PaneState, id: WindowId)
    requires s.Valid() && id !in s.layouts
    ensures var w := Win(id, Layout([0.0, 0.33, 0.66, 1.0], [0.0, 1.0],
                                    [Cell(0, 0, 1, 1), Cell(1, 0, 2, 1), Cell(2, 0, 3, 1)]), 1);
      var (s1, w1) := ToggleStep(s, w);
      && w1.layout.cols == [0.0, 0.0, 1.0, 1.0] && w1.layout.rows == [0.0, 1.0]
      && ToggleStep(s1, w1).1 == w
  {
    var w := Win(id, Layout([0.0, 0.33, 0.66, 1.0], [0.0, 1.0],
                            [Cell(0, 0, 1, 1), Cell(1, 0, 2, 1), Cell(2, 0, 3, 1)]), 1);
    assert 0.33 in w.layout.cols + w.layout.rows;
    LooksMaximizedIff(w.layout, w.NumGroups());
    ToggleTwiceRestores(s, w);
    var (s1, w1) := ToggleStep(s, w);
    assert w1.layout.cols == [0.0, 0.0, 1.0, 1.0];
  }

  // -------------------------------------------------------------- activated

  /**
   * Focus moved away from the saved group of a window the plugin maximized:
   * the saved layout is maximized again, now onto the active group, and the
   * saved record is the same layout with the new group.
   */
  lemma ActivatedRefocuses(s: PaneState, w: Win)
    requires s.Valid() && s.HasLayout(w.id) && s.MaxedGroup(w.id) != Some(w.activeGroup)
    requires w.activeGroup < |s.layouts[w.id].cells|
    ensures var (s', w') := ActivatedStep(s, w);
      && s'.layouts == s.layouts
      && s'.maxgroup == s.maxgroup[w.id := w.activeGroup]
      && s'.lockWnds == s.lockWnds
      && w' == w.(layout := MaximizedLayout(s.layouts[w.id], w.activeGroup))
  {
  }

  /**
   * A window that only looks maximized has no saved group, which never equals
   * the active group: it is always distributed and maximized again onto the
   * active group, and its distributed layout is saved; the lock set and other
   * windows' records are kept.
   */
  lemma ActivatedRecordsLookalike(s: PaneState, w: Win)
    requires s.Valid() && !s.HasLayout(w.id) && LooksMaximized(w.layout, w.NumGroups())
    ensures var (s', w') := ActivatedStep(s, w);
      && s'.layouts == s.layouts[w.id := DistributeStep(w).layout]
      && s'.maxgroup == s.maxgroup[w.id := w.activeGroup]
      && s'.lockWnds == s.lockWnds
      && w' == (if w.activeGroup < w.NumGroups()
                then w.(layout := MaximizedLayout(DistributeStep(w).layout, w.activeGroup))
                else DistributeStep(w))
  {
  }

  /** Focus staying on the saved group, or a window not maximized: nothing changes. */
  lemma ActivatedKeepsFocusedMaximize(s: PaneState, w: Win)
    requires s.Valid()
    requires !IsWindowMaximized(s, w) || s.MaxedGroup(w.id) == Some(w.activeGroup)
    ensures ActivatedStep(s, w) == (s, w)
  {
  }

  // ------------------------------------------------------------- two columns

  /** An unlocked window ends up in the two-column layout; a locked one is untouched. */
  lemma TwoColumnsOutcome(s: PaneState, w: Win)
    ensures var w' := TwoColumnsStep(s, w);
      && w'.id == w.id && w'.activeGroup == w.activeGroup
      && (w.id !in s.lockWnds ==> w'.layout == TwoColLayout)
      && (w.id in s.lockWnds ==> w' == w)
  {
  }

  /** Applying the policy twice is applying it once. */
  lemma TwoColumnsIdempotent(s: PaneState, w: Win)
    ensures TwoColumnsStep(s, TwoColumnsStep(s, w)) == TwoColumnsStep(s, w)
  {
  }
}
