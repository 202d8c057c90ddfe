/**
 * Drift correction of the sampling loop: after each tick the deadline is
 * moved forward by whole intervals until it is no longer before "now",
 * so missed tick boundaries are skipped instead of being caught up.
 */
module Schedule {

  /** The `k`-th deadline of the grid that starts at `last`. */
  function GridPoint(last: int, interval: nat, k: nat): int
  {
    last + k * interval
  }

  /**
   * `next` is the first deadline of the grid `last + k * interval` (k >= 0)
   * that is not before `now`.
   */
  ghost predicate IsNextDeadline(last: int, now: int, interval: nat, next: int)
  {
    && now <= next
    && (exists k: nat :: next == GridPoint(last, interval, k))
    && (last < next ==> next - interval < now)
  }

  /** The deadline after one tick, stated by recursion on the distance still to cover. */
  function NextDeadline(last: int, now: int, interval: nat): int
    requires interval > 0 || last >= now
    decreases now - last
  {
    if last >= now then last else NextDeadline(last + interval, now, interval)
  }

  /** The recursive deadline is the first grid point not before `now`. */
  lemma {:induction false} NextDeadlineIsNext(last: int, now: int, interval: nat)
    requires interval > 0 || last >= now
    ensures IsNextDeadline(last, now, interval, NextDeadline(last, now, interval))
    decreases now - last
  {
    if last < now {
      var next := NextDeadline(last + interval, now, interval);
      NextDeadlineIsNext(last + interval, now, interval);
      var k: nat :| next == GridPoint(last + interval, interval, k);
      assert next == GridPoint(last, interval, k + 1);
    } else {
      assert last == GridPoint(last, interval, 0);
    }
  }

  /** The deadline after one tick. The loop ends only when the interval is positive or the deadline is already due. */
  method AdvanceDeadline(last: int, now: int, interval: nat) returns (next: int)
    requires interval > 0 || last >= now
    ensures next == NextDeadline(last, now, interval)
    ensures IsNextDeadline(last, now, interval, next)
  {
    next := last;
    ghost var k: nat := 0;
    while next < now
      invariant next == GridPoint(last, interval, k)
      invariant last < next ==> next - interval < now
      invariant interval == 0 ==> next == last
      invariant NextDeadline(next, now, interval) == NextDeadline(last, now, interval)
      decreases now - next
    {
      next := next + interval;
      k := k + 1;
    }
  }

  /** The grid point is unique: two deadlines meeting the description are the same. */
  lemma NextDeadlineUnique(last: int, now: int, interval: nat, a: int, b: int)
    requires interval > 0
    requires IsNextDeadline(last, now, interval, a)
    requires IsNextDeadline(last, now, interval, b)
    ensures a == b
  {
    var ka: nat :| a == GridPoint(last, interval, ka);
    var kb: nat :| b == GridPoint(last, interval, kb);
    if ka < kb {
      GridGap(last, interval, ka, kb);
    } else if kb < ka {
      GridGap(last, interval, kb, ka);
    }
  }

  lemma GridStep(last: int, interval: nat, k: nat)
    ensures GridPoint(last, interval, k + 1) == GridPoint(last, interval, k) + interval
  {
    assert (k + 1) * interval == k * interval + interval;
  }

  /** Later points of the grid lie at least one interval further on. */
  lemma {:induction false} GridGap(last: int, interval: nat, i: nat, j: nat)
    requires i < j
    ensures GridPoint(last, interval, j) - GridPoint(last, interval, i) >= interval
    decreases j - i
  {
    GridStep(last, interval, j - 1);
    if i < j - 1 {
      GridGap(last, interval, i, j - 1);
    }
  }

  /** A grid point of a grid point is a point of the first grid. */
  lemma GridCompose(last: int, interval: nat, i: nat, j: nat)
    ensures GridPoint(GridPoint(last, interval, i), interval, j) == GridPoint(last, interval, i + j)
  {
    assert i * interval + j * interval == (i + j) * interval;
  }
}
