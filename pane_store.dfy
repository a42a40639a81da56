/**
 * The plugin's process-wide maximize state, as a value: the layout saved
 * before maximizing and the group active at that moment, both keyed by
 * window id, and the set of windows the plugin has maximized ("locked"
 * against the two-column policy).
 */
module PaneStore {
  import opened Wrappers
  import opened Geometry

  type WindowId = int

  /** What the plugin reads of a host window: its id, layout and active group. */
  datatype Win = Win(id: WindowId, layout: Layout, activeGroup: nat)
  {
    /** The host reports one group per cell of the layout. */
    function NumGroups(): nat
    {
      |layout.cells|
    }
  }

  datatype PaneState = PaneState(
    layouts: map<WindowId, Layout>,
    maxgroup: map<WindowId, nat>,
    lockWnds: set<WindowId>)
  {
    /** A saved layout always comes with a saved group, and conversely. */
    ghost predicate Valid()
    {
      layouts.Keys == maxgroup.Keys
    }

    predicate HasLayout(wid: WindowId)
    {
      wid in layouts
    }

    function MaxedGroup(wid: WindowId): Option<nat>
    {
      if wid in maxgroup then Some(maxgroup[wid]) else None
    }

    /** Save a record for `wid`, overwriting any earlier one. */
    function Stored(wid: WindowId, l: Layout, g: nat): (r: PaneState)
      ensures Valid() ==> r.Valid()
      ensures r.HasLayout(wid) && r.MaxedGroup(wid) == Some(g)
    {
      PaneState(layouts[wid := l], maxgroup[wid := g], lockWnds)
    }

    /**
     * Take out the record of `wid`: the saved layout and the state without
     * the record. The plugin raises on either lookup when the key is missing.
     */
    function Popped(wid: WindowId): (r: (Layout, PaneState))
      requires wid in layouts && wid in maxgroup
      ensures Valid() ==> r.1.Valid()
      ensures !r.1.HasLayout(wid) && r.1.MaxedGroup(wid) == None
    {
      (layouts[wid], PaneState(layouts - {wid}, maxgroup - {wid}, lockWnds))
    }

    function Locked(wid: WindowId): PaneState
    {
      this.(lockWnds := lockWnds + {wid})
    }

    function Unlocked(wid: WindowId): PaneState
    {
      this.(lockWnds := lockWnds - {wid})
    }
  }

  /** In a consistent state a window has a saved group exactly when it has a saved layout. */
  lemma MaxedGroupTracksLayout(s: PaneState, wid: WindowId)
    requires s.Valid()
    ensures s.MaxedGroup(wid).Some? <==> s.HasLayout(wid)
    ensures s.HasLayout(wid) ==> s.MaxedGroup(wid) == Some(s.maxgroup[wid])
  {
  }

  /** The plugin's record of `w`, or the looks of its layout, says it is maximized. */
  predicate IsWindowMaximized(s: PaneState, w: Win)
  {
    s.HasLayout(w.id) || LooksMaximized(w.layout, w.NumGroups())
  }

  /**
   * The criterion spelled out: a saved record, or more than one group and
   * boundaries that are all 0.0 or 1.0 with both values present.
   */
  lemma IsWindowMaximizedIff(s: PaneState, w: Win)
    ensures IsWindowMaximized(s, w) <==>
      || w.id in s.layouts
      || (&& |w.layout.cells| > 1
          && 0.0 in w.layout.cols + w.layout.rows
          && 1.0 in w.layout.cols + w.layout.rows
          && forall x :: x in w.layout.cols + w.layout.rows ==> x == 0.0 || x == 1.0)
  {
    LooksMaximizedIff(w.layout, w.NumGroups());
  }

  /**
   * Store then pop returns exactly the stored layout, leaves no record for
   * that window, and leaves every other window's record and the lock set
   * as they were.
   */
  lemma StoreThenPop(s: PaneState, wid: WindowId, l: Layout, g: nat)
    ensures var (l', s') := s.Stored(wid, l, g).Popped(wid);
      && l' == l
      && !s'.HasLayout(wid) && s'.MaxedGroup(wid) == None
      && s'.lockWnds == s.lockWnds
      && forall k :: k != wid ==>
           && s'.HasLayout(k) == s.HasLayout(k)
           && s'.MaxedGroup(k) == s.MaxedGroup(k)
           && (s.HasLayout(k) ==> s'.layouts[k] == s.layouts[k])
  {
  }

  /** Storing for a window without a record and popping it again is no change at all. */
  lemma StoreThenPopRestores(s: PaneState, wid: WindowId, l: Layout, g: nat)
    requires s.Valid() && !s.HasLayout(wid)
    ensures s.Stored(wid, l, g).Popped(wid).1 == s
  {
  }
}
