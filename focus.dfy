/**
 * Cyclic focus movement across a window's groups: the shift command moves
 * focus to the next group, the unshift command to the previous one, each
 * wrapping around at the ends.
 */
module Focus {

  /** The group the shift command focuses, from active group `g` among `numGroups`. */
  function ShiftTarget(g: int, numGroups: int): (m: int)
    ensures 0 <= g < numGroups ==> 0 <= m < numGroups && m == (g + 1) % numGroups
  {
    var n := numGroups - 1;
    if g == n then 0 else g + 1
  }

  /**
   * The group the unshift command focuses. For 0 <= g, (g - 1) % numGroups is
   * the same under Dafny's Euclidean and Python's floored remainder.
   */
  function UnshiftTarget(g: int, numGroups: int): (m: int)
    ensures 0 <= g < numGroups ==> 0 <= m < numGroups && m == (g - 1) % numGroups
  {
    var n := numGroups - 1;
    if g == 0 then n else g - 1
  }

  /** Unshift undoes shift. */
  lemma UnshiftUndoesShift(g: int, numGroups: int)
    requires 0 <= g < numGroups
    ensures UnshiftTarget(ShiftTarget(g, numGroups), numGroups) == g
  {
  }

  /** Shift undoes unshift. */
  lemma ShiftUndoesUnshift(g: int, numGroups: int)
    requires 0 <= g < numGroups
    ensures ShiftTarget(UnshiftTarget(g, numGroups), numGroups) == g
  {
  }

  /** The group reached from `g` by `k` shift commands in a row. */
  function ShiftTimes(g: int, numGroups: int, k: nat): int
  {
    if k == 0 then g else ShiftTarget(ShiftTimes(g, numGroups, k - 1), numGroups)
  }

  /** `k` shifts advance focus by `k` groups, modulo the group count. */
  lemma {:induction false} ShiftTimesIsModular(g: int, numGroups: int, k: nat)
    requires 0 <= g < numGroups
    ensures ShiftTimes(g, numGroups, k) == (g + k) % numGroups
  {
    if k > 0 {
      ShiftTimesIsModular(g, numGroups, k - 1);
      var p := (g + k - 1) % numGroups;
      assert ShiftTimes(g, numGroups, k) == (p + 1) % numGroups;
      ModSuccessor(g + k - 1, numGroups);
    }
  }

  /** Taking the successor commutes with reducing modulo n. */
  lemma ModSuccessor(a: int, n: int)
    requires 0 <= a && 0 < n
    ensures (a % n + 1) % n == (a + 1) % n
  {
    var q, r := a / n, a % n;
    if r + 1 < n {
      ModUnique(a + 1, n, q, r + 1);
      ModUnique(r + 1, n, 0, r + 1);
    } else {
      ModUnique(a + 1, n, q + 1, 0);
      ModUnique(r + 1, n, 1, 0);
    }
  }

  /** The remainder is determined by any quotient-remainder decomposition. */
  lemma ModUnique(a: int, n: int, q: int, r: int)
    requires 0 < n && 0 <= r < n && a == q * n + r
    ensures a % n == r
  {
    var q', r' := a / n, a % n;
    assert (q - q') * n == r' - r;
    if q > q' {
      assert (q - q') * n >= n by { MulAtLeast(q - q', n); }
    } else if q < q' {
      assert (q' - q) * n >= n by { MulAtLeast(q' - q, n); }
    }
  }

  lemma MulAtLeast(k: int, n: int)
    requires k >= 1 && n > 0
    ensures k * n >= n
  {
    assert k * n == (k - 1) * n + n;
  }

  /** Shifting once per group brings focus back to where it started. */
  lemma ShiftCycles(g: int, numGroups: int)
    requires 0 <= g < numGroups
    ensures ShiftTimes(g, numGroups, numGroups) == g
  {
    ShiftTimesIsModular(g, numGroups, numGroups);
    ModUnique(g + numGroups, numGroups, 1, g);
  }
}
