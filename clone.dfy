/**
 * The duplicate check of the clone-file-to-pane command: a file is already
 * cloned when more than one open view of the window shows its buffer.
 */
module Clone {

  /** An open editor view: its own id and the id of the buffer it shows. */
  datatype View = View(viewId: int, bufferId: int)

  /** How many of `views` show buffer `buf`. */
  function CountBuffer(views: seq<View>, buf: int): (n: nat)
    ensures n <= |views|
  {
    if views == [] then 0
    else (if views[0].bufferId == buf then 1 else 0) + CountBuffer(views[1..], buf)
  }

  /** More than one of the window's views shows the active view's buffer. */
  predicate IsDuplicated(active: View, views: seq<View>)
  {
    CountBuffer(views, active.bufferId) > 1
  }

  /** Some view shows `buf` exactly when the count is positive. */
  lemma {:induction false} CountPositive(views: seq<View>, buf: int)
    ensures CountBuffer(views, buf) > 0 <==> exists i :: 0 <= i < |views| && views[i].bufferId == buf
  {
    if views != [] {
      var tail := views[1..];
      CountPositive(tail, buf);
      if exists i :: 0 <= i < |tail| && tail[i].bufferId == buf {
        var i :| 0 <= i < |tail| && tail[i].bufferId == buf;
        assert views[i + 1].bufferId == buf;
      }
      if exists i :: 0 <= i < |views| && views[i].bufferId == buf {
        var i :| 0 <= i < |views| && views[i].bufferId == buf;
        if i > 0 {
          assert tail[i - 1].bufferId == buf;
        }
      }
    }
  }

  /**
   * The count-based check agrees with the direct reading: two distinct
   * positions among the views show the active view's buffer.
   */
  lemma {:induction false} IsDuplicatedIff(active: View, views: seq<View>)
    ensures IsDuplicated(active, views) <==>
      exists i, j :: 0 <= i < j < |views| && views[i].bufferId == active.bufferId
                                          && views[j].bufferId == active.bufferId
  {
    var b := active.bufferId;
    if views != [] {
      var tail := views[1..];
      IsDuplicatedIff(active, tail);
      CountPositive(tail, b);
      if IsDuplicated(active, views) {
        if views[0].bufferId == b {
          var j :| 0 <= j < |tail| && tail[j].bufferId == b;
          assert views[0].bufferId == b && views[j + 1].bufferId == b;
        } else {
          var i, j :| 0 <= i < j < |tail| && tail[i].bufferId == b && tail[j].bufferId == b;
          assert views[i + 1].bufferId == b && views[j + 1].bufferId == b;
        }
      }
      if exists i, j :: 0 <= i < j < |views| && views[i].bufferId == b && views[j].bufferId == b {
        var i, j :| 0 <= i < j < |views| && views[i].bufferId == b && views[j].bufferId == b;
        assert tail[j - 1].bufferId == b;
        if i > 0 {
          assert tail[i - 1].bufferId == b;
        }
      }
    }
  }
}
