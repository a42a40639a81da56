# TwoColumns pane-layout model

A Dafny model of the pane-layout state machine inside the TwoColumns editor
plugin (`TwoColumns.py`). The plugin keeps editor windows in a two-column
layout, lets the user maximize the active pane and restore the layout
afterwards, distributes pane boundaries evenly, cycles focus across groups,
and checks whether the active file is already cloned.

A layout has column boundaries, row boundaries (exact `real` fractions of
the window) and one cell per group. A cell holds four indices into the
boundary lists: column start, row start, column end, row end.

The project has two layers:

- The pure layer.
  - `Geometry`: maximize, "looks maximized" and distribute as functions on layouts.
  - `Focus`: shift and unshift index arithmetic.
  - `PaneStore`: the pane manager's state as a value (`PaneState`), with store and pop.
  - `Transitions`: one step function per command or event handler, from the
    state and window before to the state and window after.
  - `Clone`: the duplicate check of the clone command.
  - The lemmas about these functions state what the plugin promises.
- The imperative layer, `Plugin`.
  - A host `Window` class whose layout and focus are set in place.
  - A `PaneManager` class whose `layouts`, `maxgroup` and `lockWnds` fields are updated in place.
  - One method per command or handler, each proved to change the state exactly as its step function does.
  - Maximize builds the collapsed axes with a loop (`CollapseAxis`), as the plugin does.

The read-only queries `hasLayout`, `maxedGroup` and `looksMaximized` are
modelled as `PaneState.HasLayout`, `PaneState.MaxedGroup` and
`Geometry.LooksMaximized`. The lemmas below characterise them.

Three members have no contract of their own; the
lemmas named here characterise them:

- `PaneStore.IsWindowMaximized` models `isWindowMaximized` (TwoColumns.py:19-26). It is characterised by `IsWindowMaximizedIff`.
- `Transitions.DistributeStep` models the distribute command (TwoColumns.py:126-132). It is characterised by `Geometry.DistributedLayout`, `Geometry.DistributeIsEven` and `UnmaximizeFallsBackToDistribute`, and `Plugin.DistributeLayout` is proved to follow it.
- `Transitions.TwoColumnsStep` models `_set_two_columns` (TwoColumns.py:217-226). It is characterised by `TwoColumnsOutcome` and `TwoColumnsIdempotent`, and `Plugin.SetTwoColumns` is proved to follow it.

Two details of the plugin's behaviour:

- Maximize cuts at the active cell's END indices (`cells[g][2]`, `cells[g][3]`). Boundaries before the end index become 0.0 and the rest become 1.0. With this cut the active pane spans the whole window (`MaximizeFillsWindow`).
- Distribute divides by zero on an axis with exactly one boundary. The model keeps this: the command stops before any layout is applied. An empty axis stays empty, because no division happens.

Exceptions are modelled as follows:

- `popLayout`'s KeyError is a precondition of `Popped` and `PopLayout`.
- The IndexError of maximize on an active group without a cell happens after the record is saved. The model saves the record and leaves the layout as it was.

## Model

| member | source | states |
|---|---|---|
| PaneStore.PaneState.Stored | TwoColumns.py:39-44 | after storing, the window has a record whose group is the given one; store/maxgroup consistency is kept |
| PaneStore.PaneState.Popped | TwoColumns.py:54-60 | pop requires a record (KeyError otherwise); afterwards the window has no layout and no group; consistency is kept |
| PaneStore.MaxedGroupTracksLayout | TwoColumns.py:46-65 | in a consistent state `maxedGroup` is not None exactly when `hasLayout` holds, and then it is the saved group |
| PaneStore.StoreThenPop | TwoColumns.py:39-65 | store then pop returns exactly the stored layout, leaves no layout and no group (None) for that window, and leaves other windows' records and the lock set untouched |
| PaneStore.StoreThenPopRestores | TwoColumns.py:39-60 | store then pop on a window with no record gives back the identical state |
| PaneStore.IsWindowMaximizedIff | TwoColumns.py:19-37 | a window counts as maximized iff it has a saved layout, or it has more than one group and its boundaries are all 0.0 or 1.0 with both values present |
| Geometry.LooksMaximizedIff | TwoColumns.py:28-37 | `set(cols + rows) == {0.0, 1.0}` with more than one group is the same as: 0.0 occurs, 1.0 occurs, nothing else occurs |
| Geometry.MaximizedLayout | TwoColumns.py:89-98 | maximize keeps the number of column and row boundaries and leaves the cells unchanged |
| Geometry.CollapseIsSorted | TwoColumns.py:91-96 | boundary i becomes 0.0 iff i is below the cut and 1.0 iff it is not; the collapsed axis is non-decreasing |
| Geometry.MaximizeFillsWindow | TwoColumns.py:89-98 | when the active cell fits the layout, after maximizing its start boundaries are 0.0 and its end boundaries 1.0: the active pane fills the window |
| Geometry.MaximizedLooksMaximized | TwoColumns.py:83-101 | a maximized window of several groups is then recognised as maximized by `looksMaximized` |
| Geometry.Distribute | TwoColumns.py:134-137 | distribute fails (division by zero) exactly on one boundary; otherwise it keeps the length |
| Geometry.DistributeIsEven | TwoColumns.py:134-137 | with n >= 2 boundaries the result starts at 0.0, ends at 1.0, is spaced 1/(n-1) apart and is strictly increasing |
| Geometry.DistributeIdempotent | TwoColumns.py:134-137 | distributing a distributed axis gives the same axis |
| Geometry.DistributedLayout | TwoColumns.py:126-132 | the distribute command fails iff an axis has one boundary; otherwise it keeps both axis lengths and the cells |
| Geometry.DistributedNoLongerLooksMaximized | TwoColumns.py:111-121 | when an axis has three or more boundaries, the distributed layout no longer looks maximized |
| Focus.ShiftTarget | TwoColumns.py:147-155 | for 0 <= g < n, shift targets (g+1) mod n, which lies in [0, n) |
| Focus.UnshiftTarget | TwoColumns.py:161-169 | for 0 <= g < n, unshift targets (g-1) mod n (floored), which lies in [0, n) |
| Focus.UnshiftUndoesShift | TwoColumns.py:147-169 | unshift after shift returns to the original group |
| Focus.ShiftUndoesUnshift | TwoColumns.py:147-169 | shift after unshift returns to the original group |
| Focus.ShiftTimesIsModular | TwoColumns.py:147-155 | k shifts in a row reach (g+k) mod n |
| Focus.ShiftCycles | TwoColumns.py:147-155 | n shifts in a row return to the starting group |
| Transitions.MaximizeStep | TwoColumns.py:83-101 | maximize keeps the store consistent and does not change the window id or the active group |
| Transitions.UnmaximizeStep | TwoColumns.py:106-121 | unmaximize keeps the store consistent and does not change the window id or the active group |
| Transitions.ToggleStep | TwoColumns.py:70-78 | toggle keeps the store consistent |
| Transitions.ActivatedStep | TwoColumns.py:190-197 | the focus handler keeps the store consistent |
| Transitions.MaximizeStepEffect | TwoColumns.py:84-101 | maximize first saves the pre-maximize layout and group, changing nothing else in the store; the new boundaries are 0.0 below the active cell's end index and 1.0 from it on, sorted, with lengths and cells kept |
| Transitions.MaximizeStepWithoutCell | TwoColumns.py:86-89 | when the active group has no cell, the record is saved before the lookup raises and the window keeps its layout |
| Transitions.UnmaximizeRestores | TwoColumns.py:108-110 | with a record, unmaximize sets exactly the saved layout and deletes the window's layout and group from both maps, leaving the lock set and other windows' records alone |
| Transitions.UnmaximizeFallsBackToDistribute | TwoColumns.py:111-115 | without a record, a window that looks maximized becomes exactly its distributed window and the store stays as it was; cells are kept; an axis of one boundary leaves the window unchanged; with no such axis and an axis of three or more boundaries the window is no longer maximized |
| Transitions.UnmaximizeOnNormalWindow | TwoColumns.py:106-117 | on a window that is not maximized, unmaximize changes nothing |
| Transitions.ToggleOnMaximized | TwoColumns.py:73-75 | toggle on a maximized window restores its saved layout, or distributes it when it only looks maximized; its record and its lock are removed and every other window's record and lock are kept |
| Transitions.ToggleOnNormal | TwoColumns.py:76-78 | toggle on a normal window of several groups adds it to the lock set, saves its layout and group (other windows' records kept), maximizes it, and the window then counts as maximized |
| Transitions.ToggleOnSingleGroup | TwoColumns.py:70-78 | toggle on a normal one-group window changes nothing |
| Transitions.ToggleTwiceRestores | TwoColumns.py:70-78 | toggling a normal window of several groups twice restores its layout and the whole store, except that the window is unlocked |
| Transitions.ToggleThreeColumns | TwoColumns.py:70-101 | three columns [0, 0.33, 0.66, 1] with the middle group active maximize to [0, 0, 1, 1] and toggle back to the original window |
| Transitions.ActivatedRefocuses | TwoColumns.py:190-197 | focus moving off the saved group turns the window into the saved layout maximized onto the active group; the saved layout, the lock set and other windows' records are kept and the saved group becomes the active one |
| Transitions.ActivatedRecordsLookalike | TwoColumns.py:190-197 | a window that only looks maximized has no saved group (None), so it is always distributed and maximized onto the active group; it gains a record of its distributed layout and the active group; the lock set and other windows' records are kept |
| Transitions.ActivatedKeepsFocusedMaximize | TwoColumns.py:190-197 | when the window is not maximized, or focus is on the saved group, nothing changes |
| Transitions.TwoColumnsOutcome | TwoColumns.py:217-226 | an unlocked window ends up with exactly the two-column layout; a locked window is untouched |
| Transitions.TwoColumnsIdempotent | TwoColumns.py:217-226 | applying the two-column policy twice equals applying it once |
| Clone.CountBuffer | TwoColumns.py:237-239 | the count of views showing a buffer is at most the number of views |
| Clone.CountPositive | TwoColumns.py:237-239 | the count is positive iff some view shows the buffer |
| Clone.IsDuplicatedIff | TwoColumns.py:235-240 | `is_duplicated` holds iff two distinct views show the active view's buffer |
| Plugin.PaneManager.StoreLayout | TwoColumns.py:39-44 | the manager's maps become the old ones with the window's current layout and active group saved |
| Plugin.PaneManager.PopLayout | TwoColumns.py:54-60 | requires a record; returns the saved layout and removes the window from both maps |
| Plugin.CollapseAxis | TwoColumns.py:91-96 | the loop yields one boundary per input boundary: 0.0 before the cut index, 1.0 from it on |
| Plugin.MaximizePane | TwoColumns.py:83-101 | the store and window change exactly as `MaximizeStep` says |
| Plugin.DistributeLayout | TwoColumns.py:126-132 | the window changes exactly as `DistributeStep` says: rows and columns evenly spaced, or untouched when distributing raises |
| Plugin.UnmaximizePane | TwoColumns.py:106-121 | the store and window change exactly as `UnmaximizeStep` says |
| Plugin.ToggleMaxPane | TwoColumns.py:70-78 | the store, lock set and window change exactly as `ToggleStep` says |
| Plugin.ShiftPane | TwoColumns.py:142-155 | focus moves to the shift target; nothing else changes |
| Plugin.UnshiftPane | TwoColumns.py:160-169 | focus moves to the unshift target; nothing else changes |
| Plugin.OnActivated | TwoColumns.py:190-197 | with a window, the store and window change exactly as `ActivatedStep` says; without one, nothing changes |
| Plugin.SetTwoColumns | TwoColumns.py:217-226 | with a window, its layout follows the two-column policy for the current lock set; without one, nothing changes |

## Left out

- The editor API plumbing is not modelled. This covers imports, command registration, `run_command` dispatch by name and `plugin_loaded`/`__call__` startup. `on_new_async` and `on_load_async` only call the two-column policy, which is modelled as `SetTwoColumns`. Commands are modelled as direct method calls.
- Concurrency is not modelled. The host runs `on_new_async` and `on_load_async` (TwoColumns.py:204-210) on its worker thread, and runs the commands and `on_activated` on the UI thread. The model treats each command and handler as one atomic step. So it does not capture the two-column policy interleaving with a UI-thread command. For example, a toggle can lock and maximize the window between the lock test (line 222) and `set_layout` (line 224). The policy then overwrites the maximized layout while the saved record stays.
- The "MAX" status text that maximize sets and unmaximize erases on every view is not modelled. It is a cosmetic host side effect.
- `on_window_command` is not modelled. It forwards a fixed list of command names to unmaximize, and on exit it unmaximizes every window the host enumerates.
- The `print` logging is not modelled.
- The clone command's sequence of host commands (clone, move to the neighbouring group, refocus) is not modelled. Only its duplicate check `is_duplicated` is.
- Boundaries are exact reals rather than IEEE doubles, so the model says nothing about rounding. `looksMaximized` compares against the literals 0.0 and 1.0, and distribute's i/(n-1) is exact in the model.
- How the host resolves a view's window (`view.window() or sublime.active_window()`) is not modelled. `OnActivated` and `SetTwoColumns` receive the resolved window, possibly null.
- `Plugin.Window.SetLayout` leaves the active group unchanged. How the host re-focuses when a layout with fewer groups is applied is not modelled.
- The active group is a `nat`. Python's negative indexing of `cells[g]` cannot occur and is not modelled.
- Exceptions raised inside a command invoked through `run_command` are assumed to stop only that command. The division by zero in distribute and the IndexError in maximize are modelled that way.
- `layout != TWO_COL_LAYOUT` is modelled as equality of the three layout fields. This assumes the host's layout dictionary has exactly these keys.
- Plugin.UnshiftPane: requires at least one group, which the host always reports. The zero-group case is not modelled.
