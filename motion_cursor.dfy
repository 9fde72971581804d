/** The waypoint cursor of `get_motion_sequence`, the same in all three
    versions of `RobotArm2`: a round-robin index over the motion pattern
    that wraps to the first waypoint once the count reaches the end. */
module MotionCursor {
  import opened Wrappers

  /** What one `get_motion_sequence` call does. */
  datatype Advance<T> =
    | NoPattern                      // `motion_pattern` is None: nothing changes
    | EmptyPattern                   // the count is reset to 0, then `pattern[0]` raises IndexError
    | Next(waypoint: T, count: nat)  // the new destination and the new `sequence_count`

  /** The index read: the count itself while it is below the length,
      otherwise 0. */
  function CursorIndex(count: nat, len: nat): (k: nat)
    requires len > 0
    ensures k < len
  {
    if count >= len then 0 else count
  }

  /** One call of `get_motion_sequence` on a pattern and a count. */
  function AdvanceCursor<T>(pattern: Option<seq<T>>, count: nat): (r: Advance<T>)
    ensures r.NoPattern? <==> pattern.None?
    ensures r.EmptyPattern? <==> pattern == Some([])
    ensures r.Next? ==> 1 <= r.count <= |pattern.value| && r.waypoint == pattern.value[r.count - 1]
    ensures r.Next? ==> r.count == (if count < |pattern.value| then count + 1 else 1)
  {
    match pattern
    case None => NoPattern
    case Some(p) =>
      if |p| == 0 then EmptyPattern
      else
        var k := CursorIndex(count, |p|);
        Next(p[k], k + 1)
  }

  /** The count reached after `n` calls, starting from count 0. */
  function CountAfter<T>(p: seq<T>, n: nat): nat
    requires |p| > 0
  {
    if n == 0 then 0 else AdvanceCursor(Some(p), CountAfter(p, n - 1)).count
  }

  lemma ModUnique(n: int, d: int, q: int, r: int)
    requires d > 0 && 0 <= r < d && n == q * d + r
    ensures n % d == r
  {
    var q', r' := n / d, n % d;
    assert n == q' * d + r';
    if q > q' {
      QuotientGap(q, q', d);
      assert false;
    } else if q < q' {
      QuotientGap(q', q, d);
      assert false;
    }
  }

  lemma QuotientGap(a: int, b: int, d: int)
    requires a > b && d > 0
    ensures a * d >= b * d + d
  {
    var k := a - b;
    AtLeastOnce(k, d);
    Distribute(b, k, d);
  }

  lemma Distribute(b: int, k: int, d: int)
    ensures (b + k) * d == b * d + k * d
  {
  }

  lemma {:induction false} AtLeastOnce(k: nat, d: int)
    requires k >= 1 && d > 0
    ensures k * d >= d
    decreases k
  {
    if k > 1 {
      AtLeastOnce(k - 1, d);
      Distribute(k - 1, 1, d);
    }
  }

  /** Stepping a remainder by one wraps from `d - 1` to 0. */
  lemma ModSucc(i: nat, d: nat)
    requires d > 0
    ensures (i + 1) % d == if i % d == d - 1 then 0 else i % d + 1
  {
    var q, r := i / d, i % d;
    assert i == q * d + r;
    if r == d - 1 {
      ModUnique(i + 1, d, q + 1, 0);
    } else {
      ModUnique(i + 1, d, q, r + 1);
    }
  }

  /** Calls made from count 0 visit the waypoints cyclically: the `n`-th
      call aims at waypoint `(n - 1) mod len` and leaves the count at
      `(n - 1) mod len + 1`. */
  lemma {:induction false} CyclicVisit<T>(p: seq<T>, n: nat)
    requires |p| > 0 && n > 0
    ensures CountAfter(p, n) == (n - 1) % |p| + 1
    ensures AdvanceCursor(Some(p), CountAfter(p, n - 1)).waypoint == p[(n - 1) % |p|]
  {
    if n > 1 {
      CyclicVisit(p, n - 1);
      ModSucc(n - 2, |p|);
    }
  }
}
