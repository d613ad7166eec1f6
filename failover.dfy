/**
 * The failover rule shared by both rotating strategies.
 *
 * A candidate list `list` is scanned cyclically from the cursor `c`:
 * positions (c + 0) mod n, (c + 1) mod n, ..., (c + n - 1) mod n. The first
 * candidate that is alive and healthy wins and the cursor moves just past its
 * position. If there is none, the first alive candidate met in that order is
 * returned, and the cursor moves just past the FIRST OCCURRENCE of that
 * candidate in the list (not past the scan position). If nothing is alive, or
 * the list is empty, there is no pick and the cursor stays where it was.
 *
 * Candidates are compared by identity (`==` on T), and their state is read
 * from a snapshot `m`, so a candidate that occurs several times in the list
 * has one state.
 */
module Failover {
  import opened Wrappers

  /** What a strategy reads of one server. */
  datatype Status = Status(alive: bool, healthy: bool, weight: nat)

  /** The result of one selection: the scan position picked and the new cursor, or nothing. */
  datatype Pick = NoPick | Pick(pos: nat, next: nat)

  predicate Ready(s: Status) { s.alive && s.healthy }

  predicate Up(s: Status) { s.alive }

  /** Every candidate of the list has a state in the snapshot. */
  predicate Covers<T(==)>(list: seq<T>, m: map<T, Status>)
  {
    forall i | 0 <= i < |list| :: list[i] in m
  }

  /** The state of the candidate met at offset k of a scan that starts at cursor c. */
  function At<T(==)>(list: seq<T>, m: map<T, Status>, c: nat, k: nat): Status
    requires Covers(list, m) && k < |list|
  {
    m[list[(c + k) % |list|]]
  }

  /**
   * The least offset at or after k, in a scan from cursor c, whose candidate
   * satisfies `want`; None when no offset in [k, n) does.
   */
  function ScanFrom<T(==)>(list: seq<T>, m: map<T, Status>, c: nat, k: nat, want: Status -> bool): (r: Option<nat>)
    requires Covers(list, m) && k <= |list|
    ensures r.Some? ==> k <= r.value < |list| && want(At(list, m, c, r.value))
    ensures r.Some? ==> forall j | k <= j < r.value :: !want(At(list, m, c, j))
    ensures r.None? ==> forall j | k <= j < |list| :: !want(At(list, m, c, j))
    decreases |list| - k
  {
    if k == |list| then None
    else if want(At(list, m, c, k)) then Some(k)
    else ScanFrom(list, m, c, k + 1, want)
  }

  /** The index of the first occurrence of x in the list. */
  function FirstIndexOf<T(==)>(list: seq<T>, x: T): (i: nat)
    requires x in list
    ensures i < |list| && list[i] == x
    ensures forall j | 0 <= j < i :: list[j] != x
  {
    if list[0] == x then 0 else 1 + FirstIndexOf(list[1..], x)
  }

  /** The two-pass failover scan: a healthy candidate first, else the first alive one, else nothing. */
  function Select<T(==)>(list: seq<T>, m: map<T, Status>, c: nat): (p: Pick)
    requires Covers(list, m)
    ensures p.Pick? ==> p.pos < |list| && p.next < |list| && Up(m[list[p.pos]])
  {
    var n := |list|;
    if n == 0 then NoPick
    else
      match ScanFrom(list, m, c, 0, Ready)
      case Some(k) =>
        var pos := (c + k) % n;
        Pick(pos, (pos + 1) % n)
      case None =>
        match ScanFrom(list, m, c, 0, Up)
        case Some(k) =>
          var pos := (c + k) % n;
          Pick(pos, (FirstIndexOf(list, list[pos]) + 1) % n)
        case None => NoPick
  }

  /** How many entries of the list are alive and healthy (a repeated candidate counts each time). */
  function CountReady<T(==)>(list: seq<T>, m: map<T, Status>): (c: nat)
    requires Covers(list, m)
    ensures c <= |list|
  {
    if list == [] then 0
    else CountReady(list[..|list| - 1], m) + (if Ready(m[list[|list| - 1]]) then 1 else 0)
  }

  // ---------------------------------------------------------------------------
  // Arithmetic helpers on the cyclic scan position.

  lemma MulAtLeast(d: int, n: nat)
    requires d >= 1
    ensures d * n >= n
  {
  }

  lemma ModUnique(x: int, n: nat, q: int, r: int)
    requires n > 0 && x == q * n + r && 0 <= r < n
    ensures x % n == r
  {
    var q', r' := x / n, x % n;
    assert (q - q') * n == r' - r;
    if q - q' >= 1 {
      MulAtLeast(q - q', n);
    } else if q' - q >= 1 {
      MulAtLeast(q' - q, n);
    }
  }

  lemma ModShift(a: nat, t: nat, n: nat)
    requires n > 0
    ensures ((a % n) + t) % n == (a + t) % n
  {
    var y := a % n + t;
    ModUnique(y, n, y / n, y % n);
    ModUnique(a + t, n, a / n + y / n, y % n);
  }

  lemma ModWrap(x: nat, n: nat)
    requires n > 0 && x < 2 * n
    ensures x % n == if x < n then x else x - n
  {
  }

  /** Every index of the list is met at exactly one offset of a scan, namely this one. */
  function OffsetOf(c: nat, i: nat, n: nat): (k: nat)
    requires i < n
    ensures k < n && (c + k) % n == i
  {
    var c0 := c % n;
    ModShift(c, if i >= c0 then i - c0 else i + n - c0, n);
    ModWrap(c0 + (if i >= c0 then i - c0 else i + n - c0), n);
    if i >= c0 then i - c0 else i + n - c0
  }

  // ---------------------------------------------------------------------------
  // Properties of a single selection.

  /** An empty list, or one where nothing is alive, yields no pick; otherwise there is one. */
  lemma {:induction false} NoPickIffNoneAlive<T>(list: seq<T>, m: map<T, Status>, c: nat)
    requires Covers(list, m)
    ensures Select(list, m, c).NoPick? <==> forall i | 0 <= i < |list| :: !Up(m[list[i]])
  {
    var n := |list|;
    if Select(list, m, c).NoPick? && n > 0 {
      forall i | 0 <= i < n ensures !Up(m[list[i]]) {
        var k := OffsetOf(c, i, n);
        assert At(list, m, c, k) == m[list[i]];
      }
    }
    if forall i | 0 <= i < n :: !Up(m[list[i]]) {
      forall k | 0 <= k < n ensures !Up(At(list, m, c, k)) && !Ready(At(list, m, c, k)) {
        assert At(list, m, c, k) == m[list[(c + k) % n]];
      }
    }
  }

  /** When some entry is alive and healthy, the pick is alive and healthy and is the first such in scan order. */
  lemma {:induction false} HealthyPreferred<T>(list: seq<T>, m: map<T, Status>, c: nat, i: nat)
    requires Covers(list, m) && i < |list| && Ready(m[list[i]])
    ensures var p := Select(list, m, c);
      && p.Pick?
      && Ready(m[list[p.pos]])
      && p.next == (p.pos + 1) % |list|
      && forall j | 0 <= j < OffsetOf(c, p.pos, |list|) :: !Ready(At(list, m, c, j))
  {
    var n := |list|;
    var k0 := OffsetOf(c, i, n);
    assert Ready(At(list, m, c, k0));
    var h := ScanFrom(list, m, c, 0, Ready);
    assert h.Some?;
    var p := Select(list, m, c);
    assert p.pos == (c + h.value) % n;
    OffsetUnique(c, OffsetOf(c, p.pos, n), h.value, n);
  }

  /** A scan from offset 0 stops at the first offset whose candidate is wanted. */
  lemma ScanFindsFirst<T>(list: seq<T>, m: map<T, Status>, c: nat, k: nat, want: Status -> bool)
    requires Covers(list, m) && k < |list| && want(At(list, m, c, k))
    requires forall j | 0 <= j < k :: !want(At(list, m, c, j))
    ensures ScanFrom(list, m, c, 0, want) == Some(k)
  {
  }

  /** A scan from offset 0 over candidates none of which is wanted finds nothing. */
  lemma ScanFindsNone<T>(list: seq<T>, m: map<T, Status>, c: nat, want: Status -> bool)
    requires Covers(list, m)
    requires forall j | 0 <= j < |list| :: !want(At(list, m, c, j))
    ensures ScanFrom(list, m, c, 0, want) == None
  {
  }

  /** The scan's first healthy candidate decides the pick: its position, and the cursor just past it. */
  lemma SelectHealthy<T>(list: seq<T>, m: map<T, Status>, c: nat, k: nat)
    requires Covers(list, m) && k < |list| && Ready(At(list, m, c, k))
    requires forall j | 0 <= j < k :: !Ready(At(list, m, c, j))
    ensures Select(list, m, c) == Pick((c + k) % |list|, ((c + k) % |list| + 1) % |list|)
  {
    ScanFindsFirst(list, m, c, k, Ready);
  }

  /** With no healthy candidate, the first alive one in the scan is picked and the cursor goes past its first occurrence. */
  lemma SelectFallback<T>(list: seq<T>, m: map<T, Status>, c: nat, k: nat)
    requires Covers(list, m) && k < |list| && Up(At(list, m, c, k))
    requires forall j | 0 <= j < |list| :: !Ready(At(list, m, c, j))
    requires forall j | 0 <= j < k :: !Up(At(list, m, c, j))
    ensures var pos := (c + k) % |list|;
      Select(list, m, c) == Pick(pos, (FirstIndexOf(list, list[pos]) + 1) % |list|)
  {
    ScanFindsNone(list, m, c, Ready);
    ScanFindsFirst(list, m, c, k, Up);
  }

  /** With nothing alive in the scan, there is no pick. */
  lemma SelectNone<T>(list: seq<T>, m: map<T, Status>, c: nat)
    requires Covers(list, m)
    requires forall j | 0 <= j < |list| :: !Up(At(list, m, c, j))
    ensures Select(list, m, c) == NoPick
  {
    if |list| > 0 {
      forall j | 0 <= j < |list| ensures !Ready(At(list, m, c, j)) {
        assert !Up(At(list, m, c, j));
      }
      ScanFindsNone(list, m, c, Ready);
      ScanFindsNone(list, m, c, Up);
    }
  }

  /** Two offsets of one scan that land on the same position are equal. */
  lemma OffsetUnique(c: nat, k1: nat, k2: nat, n: nat)
    requires k1 < n && k2 < n && (c + k1) % n == (c + k2) % n
    ensures k1 == k2
  {
    ModShift(c, k1, n);
    ModShift(c, k2, n);
    ModWrap(c % n + k1, n);
    ModWrap(c % n + k2, n);
  }

  /**
   * With no healthy entry but some alive one, the pick is the first alive
   * candidate in scan order, and the cursor goes just past that candidate's
   * first occurrence in the list.
   */
  lemma {:induction false} FallbackIsFirstAlive<T>(list: seq<T>, m: map<T, Status>, c: nat, i: nat)
    requires Covers(list, m) && i < |list| && Up(m[list[i]])
    requires forall j | 0 <= j < |list| :: !Ready(m[list[j]])
    ensures var p := Select(list, m, c);
      && p.Pick?
      && Up(m[list[p.pos]]) && !m[list[p.pos]].healthy
      && list[(p.next + |list| - 1) % |list|] == list[p.pos]
      && (forall j | 0 <= j < (p.next + |list| - 1) % |list| :: list[j] != list[p.pos])
      && forall j | 0 <= j < OffsetOf(c, p.pos, |list|) :: !Up(At(list, m, c, j))
  {
    var n := |list|;
    var k0 := OffsetOf(c, i, n);
    assert Up(At(list, m, c, k0));
    forall k | 0 <= k < n ensures !Ready(At(list, m, c, k)) {
      assert At(list, m, c, k) == m[list[(c + k) % n]];
    }
    var s := ScanFrom(list, m, c, 0, Up);
    assert s.Some?;
    var p := Select(list, m, c);
    var f := FirstIndexOf(list, list[p.pos]);
    assert p.next == (f + 1) % n;
    ModWrap(f + 1, n);
    ModWrap(p.next + n - 1, n);
    OffsetUnique(c, OffsetOf(c, p.pos, n), s.value, n);
  }

  /** On a list without repeats the fallback cursor rule coincides with "just past the scan position". */
  lemma FallbackOnDistinctList<T>(list: seq<T>, m: map<T, Status>, c: nat)
    requires Covers(list, m)
    requires forall i, j | 0 <= i < j < |list| :: list[i] != list[j]
    ensures var p := Select(list, m, c); p.Pick? ==> p.next == (p.pos + 1) % |list|
  {
    var p := Select(list, m, c);
    if p.Pick? && ScanFrom(list, m, c, 0, Ready).None? {
      var f := FirstIndexOf(list, list[p.pos]);
      assert f == p.pos;
    }
  }

  /** A pick never moves the cursor out of [0, n), and no pick leaves it untouched. */
  lemma CursorStaysInRange<T>(list: seq<T>, m: map<T, Status>, c: nat)
    requires Covers(list, m)
    ensures var p := Select(list, m, c);
      (p.Pick? ==> p.next < |list|) && (p.NoPick? ==> |list| == 0 || forall i | 0 <= i < |list| :: !Up(m[list[i]]))
  {
    NoPickIffNoneAlive(list, m, c);
  }

  // ---------------------------------------------------------------------------
  // Repeated selections.

  /** The scan positions picked by k consecutive selections from cursor c, the states being unchanged. */
  function Picks<T(==)>(list: seq<T>, m: map<T, Status>, c: nat, k: nat): seq<nat>
    requires Covers(list, m)
    decreases k
  {
    if k == 0 then []
    else
      match Select(list, m, c)
      case NoPick => []
      case Pick(pos, next) => [pos] + Picks(list, m, next, k - 1)
  }

  predicate AllReady<T(==)>(list: seq<T>, m: map<T, Status>)
    requires Covers(list, m)
  {
    forall i | 0 <= i < |list| :: Ready(m[list[i]])
  }

  /** On a fully healthy list, consecutive selections from cursor c pick positions c, c+1, ... cyclically. */
  lemma {:induction false} PicksRotate<T>(list: seq<T>, m: map<T, Status>, c: nat, k: nat)
    requires Covers(list, m) && AllReady(list, m) && |list| > 0
    ensures |Picks(list, m, c, k)| == k
    ensures forall t | 0 <= t < k :: Picks(list, m, c, k)[t] == (c + t) % |list|
    decreases k
  {
    var n := |list|;
    if k > 0 {
      var k0 := OffsetOf(c, 0, n);
      assert Ready(At(list, m, c, 0));
      var p := Select(list, m, c);
      assert p.pos == c % n && p.next == (c % n + 1) % n;
      PicksRotate(list, m, p.next, k - 1);
      forall t | 0 <= t < k ensures Picks(list, m, c, k)[t] == (c + t) % n {
        if t > 0 {
          ModShift(c % n + 1, t - 1, n);
          ModShift(c, t, n);
        }
      }
    }
  }

  /**
   * Round robin over a fully healthy list of n entries: from any cursor
   * c < n, n consecutive selections visit every position exactly once, in
   * list order starting at c, and the (n+1)-th selection repeats the first.
   */
  lemma RoundRobinVisitsEachOnce<T>(list: seq<T>, m: map<T, Status>, c: nat)
    requires Covers(list, m) && AllReady(list, m) && |list| > 0
    ensures var n := |list|; var c0 := c % n; var ps := Picks(list, m, c, n + 1);
      && |ps| == n + 1
      && (forall t | 0 <= t < n :: ps[t] == if c0 + t < n then c0 + t else c0 + t - n)
      && (forall t1, t2 | 0 <= t1 < t2 < n :: ps[t1] != ps[t2])
      && (forall i | 0 <= i < n :: i in ps[..n])
      && ps[n] == ps[0]
  {
    var n := |list|;
    var c0 := c % n;
    var ps := Picks(list, m, c, n + 1);
    PicksRotate(list, m, c, n + 1);
    forall t | 0 <= t <= n ensures ps[t] == (c0 + t) % n {
      ModShift(c, t, n);
    }
    forall t | 0 <= t < n ensures ps[t] == if c0 + t < n then c0 + t else c0 + t - n {
      ModWrap(c0 + t, n);
    }
    ModWrap(c0 + n, n);
    ModWrap(c0, n);
    forall i | 0 <= i < n ensures i in ps[..n] {
      var t := if i >= c0 then i - c0 else i + n - c0;
      assert ps[..n][t] == i;
    }
  }

  /** Counting the healthy entries: positive exactly when one exists, |list| exactly when all are. */
  lemma {:induction false} CountReadyMeaning<T>(list: seq<T>, m: map<T, Status>)
    requires Covers(list, m)
    ensures CountReady(list, m) <= |list|
    ensures CountReady(list, m) > 0 <==> exists i | 0 <= i < |list| :: Ready(m[list[i]])
    ensures CountReady(list, m) == |list| <==> AllReady(list, m)
  {
    if list != [] {
      var init := list[..|list| - 1];
      assert Covers(init, m);
      CountReadyMeaning(init, m);
      assert forall i | 0 <= i < |init| :: init[i] == list[i];
      if exists i | 0 <= i < |init| :: Ready(m[init[i]]) {
        var i :| 0 <= i < |init| && Ready(m[init[i]]);
        assert Ready(m[list[i]]);
      }
    }
  }
}
