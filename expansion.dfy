/**
 * The weighted round-robin expansion list: every alive server of the pool,
 * in pool order, repeated `weight` times in a row. Dead servers and servers
 * of weight 0 do not appear. It is a projection of the pool taken at one
 * moment; the weighted balancer keeps it as separate state.
 */
module Expansion {
  import opened Wrappers
  import opened Failover

  /** k copies of x. */
  function Repeat<T>(x: T, k: nat): (r: seq<T>)
    ensures |r| == k
    ensures forall i | 0 <= i < k :: r[i] == x
  {
    if k == 0 then [] else Repeat(x, k - 1) + [x]
  }

  /** The block one candidate contributes: weight copies when alive, nothing otherwise. */
  function Block<T(==)>(x: T, m: map<T, Status>): seq<T>
    requires x in m
  {
    if m[x].alive then Repeat(x, m[x].weight) else []
  }

  /** The expansion of a list, built front to back as the pool is walked. */
  function Expand<T(==)>(list: seq<T>, m: map<T, Status>): (e: seq<T>)
    requires Covers(list, m)
    ensures forall i | 0 <= i < |e| :: e[i] in list && m[e[i]].alive
  {
    if list == [] then []
    else Expand(list[..|list| - 1], m) + Block(list[|list| - 1], m)
  }

  /** The sum of the weights of the alive entries of the list. */
  function AliveWeight<T(==)>(list: seq<T>, m: map<T, Status>): nat
    requires Covers(list, m)
  {
    if list == [] then 0
    else AliveWeight(list[..|list| - 1], m) + (if m[list[|list| - 1]].alive then m[list[|list| - 1]].weight else 0)
  }

  lemma PrefixCovers<T>(list: seq<T>, m: map<T, Status>, i: nat)
    requires Covers(list, m) && i <= |list|
    ensures Covers(list[..i], m) && Covers(list[i..], m)
  {
    assert forall j | 0 <= j < i :: list[..i][j] == list[j];
    assert forall j | 0 <= j < |list| - i :: list[i..][j] == list[i + j];
  }

  /** Walking one more entry of the pool appends that entry's block. */
  lemma ExpandPrefixStep<T>(list: seq<T>, m: map<T, Status>, i: nat)
    requires Covers(list, m) && i < |list|
    ensures Covers(list[..i], m) && Covers(list[..i + 1], m)
    ensures Expand(list[..i + 1], m) == Expand(list[..i], m) + Block(list[i], m)
  {
    PrefixCovers(list, m, i);
    PrefixCovers(list, m, i + 1);
    assert list[..i + 1][..i] == list[..i];
  }

  /** The expansion has one slot per unit of alive weight. */
  lemma {:induction false} ExpandLength<T>(list: seq<T>, m: map<T, Status>)
    requires Covers(list, m)
    ensures |Expand(list, m)| == AliveWeight(list, m)
  {
    if list != [] {
      PrefixCovers(list, m, |list| - 1);
      ExpandLength(list[..|list| - 1], m);
    }
  }

  /** Expanding a concatenation expands each part in turn: pool order is kept. */
  lemma {:induction false} ExpandAppend<T>(a: seq<T>, b: seq<T>, m: map<T, Status>)
    requires Covers(a, m) && Covers(b, m)
    ensures Covers(a + b, m)
    ensures Expand(a + b, m) == Expand(a, m) + Expand(b, m)
    decreases |b|
  {
    assert forall j | 0 <= j < |a + b| :: (a + b)[j] == (if j < |a| then a[j] else b[j - |a|]);
    if b != [] {
      var b' := b[..|b| - 1];
      PrefixCovers(b, m, |b| - 1);
      ExpandAppend(a, b', m);
      assert (a + b)[..|a + b| - 1] == a + b';
    } else {
      assert a + b == a;
    }
  }

  /**
   * The expansion is the blocks of the entries in pool order: the entries
   * before position i, then entry i's weight copies, then the entries after it.
   */
  lemma ExpandSplit<T>(list: seq<T>, m: map<T, Status>, i: nat)
    requires Covers(list, m) && i < |list|
    ensures Covers(list[..i], m) && Covers(list[i + 1..], m)
    ensures Expand(list, m) == Expand(list[..i], m) + Block(list[i], m) + Expand(list[i + 1..], m)
  {
    PrefixCovers(list, m, i);
    PrefixCovers(list, m, i + 1);
    assert list == list[..i] + [list[i]] + list[i + 1..];
    ExpandAppend(list[..i], [list[i]], m);
    assert Expand([list[i]], m) == Block(list[i], m) by {
      assert [list[i]][..0] == [];
    }
    ExpandAppend(list[..i] + [list[i]], list[i + 1..], m);
  }

  /** A candidate is in the expansion exactly when it is in the list, alive, and of positive weight. */
  lemma {:induction false} ExpandMembers<T>(list: seq<T>, m: map<T, Status>, x: T)
    requires Covers(list, m)
    ensures x in Expand(list, m) <==> x in list && m[x].alive && m[x].weight > 0
  {
    if list != [] {
      var init, last := list[..|list| - 1], list[|list| - 1];
      PrefixCovers(list, m, |list| - 1);
      ExpandMembers(init, m, x);
      assert list == init + [last];
      assert x in list <==> x in init || x == last;
    }
  }

  /** Every slot of the expansion holds a candidate of the list, so its state is in the snapshot. */
  lemma ExpandCovers<T>(list: seq<T>, m: map<T, Status>)
    requires Covers(list, m)
    ensures Covers(Expand(list, m), m)
  {
    forall i | 0 <= i < |Expand(list, m)| ensures Expand(list, m)[i] in m {
      ExpandMembers(list, m, Expand(list, m)[i]);
    }
  }

  /**
   * How often a candidate appears in the expansion: its weight times the
   * number of times it is in the list when alive, never when dead.
   */
  lemma {:induction false} ExpandMultiplicity<T>(list: seq<T>, m: map<T, Status>, x: T)
    requires Covers(list, m) && x in m
    ensures multiset(Expand(list, m))[x] == if m[x].alive then m[x].weight * multiset(list)[x] else 0
  {
    if list != [] {
      var init, last := list[..|list| - 1], list[|list| - 1];
      PrefixCovers(list, m, |list| - 1);
      ExpandMultiplicity(init, m, x);
      MultiplicityStep(list, m, x);
      if x == last && m[x].alive {
        MulSucc(m[x].weight, multiset(init)[x]);
      }
    }
  }

  /** One step of the expansion, counted: the last entry adds its block to the expansion and one occurrence to the list. */
  lemma MultiplicityStep<T>(list: seq<T>, m: map<T, Status>, x: T)
    requires Covers(list, m) && x in m && list != []
    ensures Covers(list[..|list| - 1], m)
    ensures var init, last := list[..|list| - 1], list[|list| - 1];
      && multiset(list)[x] == multiset(init)[x] + (if x == last then 1 else 0)
      && multiset(Expand(list, m))[x] == multiset(Expand(init, m))[x] + (if x == last && m[x].alive then m[x].weight else 0)
  {
    PrefixCovers(list, m, |list| - 1);
    assert list == list[..|list| - 1] + [list[|list| - 1]];
    BlockMultiplicity(list, m, x);
  }

  lemma BlockMultiplicity<T>(list: seq<T>, m: map<T, Status>, x: T)
    requires Covers(list, m) && x in m && list != []
    requires Covers(list[..|list| - 1], m)
    ensures var init, last := list[..|list| - 1], list[|list| - 1];
      multiset(Expand(list, m))[x] == multiset(Expand(init, m))[x] + (if x == last && m[x].alive then m[x].weight else 0)
  {
    var init, last := list[..|list| - 1], list[|list| - 1];
    var k := if m[last].alive then m[last].weight else 0;
    var pre := Expand(init, m);
    assert Expand(list, m) == pre + Repeat(last, k);
    RepeatMultiplicity(last, k, x);
    assert multiset(pre + Repeat(last, k)) == multiset(pre) + multiset(Repeat(last, k));
  }

  lemma MulSucc(w: nat, c: nat)
    ensures w * (c + 1) == w * c + w
  {
  }

  lemma {:induction false} RepeatMultiplicity<T>(y: T, k: nat, x: T)
    ensures multiset(Repeat(y, k))[x] == if x == y then k else 0
  {
    if k > 0 {
      RepeatMultiplicity(y, k - 1, x);
    }
  }

  /**
   * Weights 3 and 1 over two distinct healthy servers A and B: the
   * expansion is A, A, A, B, and four selections from cursor 0 return
   * A, A, A, B in that order.
   */
  lemma ThreeToOne<T>(a: T, b: T, m: map<T, Status>)
    requires a != b && a in m && b in m
    requires m[a] == Status(true, true, 3) && m[b] == Status(true, true, 1)
    ensures Covers([a, b], m) && Expand([a, b], m) == [a, a, a, b]
    ensures var e := [a, a, a, b]; var ps := Picks(e, m, 0, 4);
      |ps| == 4 && e[ps[0]] == a && e[ps[1]] == a && e[ps[2]] == a && e[ps[3]] == b
  {
    ExpandThreeToOne(a, b, m);
    var e := [a, a, a, b];
    assert AllReady(e, m);
    PicksOfFour(e, m);
  }

  lemma PicksOfFour<T>(e: seq<T>, m: map<T, Status>)
    requires Covers(e, m) && AllReady(e, m) && |e| == 4
    ensures Picks(e, m, 0, 4) == [0, 1, 2, 3]
  {
    PicksRotate(e, m, 0, 4);
    var ps := Picks(e, m, 0, 4);
    assert ps[0] == 0 % 4 && ps[1] == 1 % 4 && ps[2] == 2 % 4 && ps[3] == 3 % 4;
  }

  lemma ExpandThreeToOne<T>(a: T, b: T, m: map<T, Status>)
    requires a in m && b in m && m[a].alive && m[a].weight == 3 && m[b].alive && m[b].weight == 1
    ensures Covers([a, b], m) && Expand([a, b], m) == [a, a, a, b]
  {
    assert [a, b][..1] == [a];
    assert [a][..0] == [];
    assert Repeat(a, 3) == [a, a, a];
    assert Repeat(b, 1) == [b];
    assert Expand([a], m) == [a, a, a];
  }

  /**
   * Where the fallback cursor rule shows: expansion A, A, A, B with A alive
   * but unhealthy and B dead. From cursor 2 the scan returns A at position 2,
   * yet the cursor moves to 1 (past A's first slot), not to 3; the next call
   * returns A again from position 1 and leaves the cursor at 1.
   */
  lemma FallbackCursorInExpansion<T>(a: T, b: T, m: map<T, Status>)
    requires a != b && a in m && b in m
    requires m[a] == Status(true, false, 3) && m[b] == Status(false, false, 1)
    ensures Covers([a, a, a, b], m)
    ensures Select([a, a, a, b], m, 2) == Pick(2, 1)
    ensures Select([a, a, a, b], m, 1) == Pick(1, 1)
  {
    var e := [a, a, a, b];
    assert FirstIndexOf(e, a) == 0;
    assert ScanFrom(e, m, 2, 0, Ready).None?;
    assert ScanFrom(e, m, 2, 0, Up) == Some(0);
    assert ScanFrom(e, m, 1, 0, Ready).None?;
    assert ScanFrom(e, m, 1, 0, Up) == Some(0);
  }

  /**
   * Where the fallback cursor rule starves a server: weights 2 and 1 over A
   * and B, both alive but unhealthy, give the list A, A, B. From cursor 2 the
   * pick is B and the cursor goes to 0; from 0 the pick is A and the cursor
   * goes to 1; from 1 the pick is A at slot 1 and the cursor stays at 1, so
   * from then on every selection returns A and B is never returned again.
   */
  lemma FallbackStarves<T>(a: T, b: T, m: map<T, Status>, k: nat)
    requires a != b && a in m && b in m
    requires m[a] == Status(true, false, 2) && m[b] == Status(true, false, 1)
    ensures Covers([a, b], m) && Expand([a, b], m) == [a, a, b]
    ensures Covers([a, a, b], m)
    ensures Select([a, a, b], m, 2) == Pick(2, 0)
    ensures Select([a, a, b], m, 0) == Pick(0, 1)
    ensures Picks([a, a, b], m, 1, k) == Repeat(1, k)
  {
    ExpandTwoToOne(a, b, m);
    StarvedFrom2(a, b, m);
    StarvedFrom0(a, b, m);
    StarvedFrom1(a, b, m);
    PicksStuck([a, a, b], m, 1, 1, k);
  }

  lemma ExpandTwoToOne<T>(a: T, b: T, m: map<T, Status>)
    requires a in m && b in m && m[a].alive && m[a].weight == 2 && m[b].alive && m[b].weight == 1
    ensures Covers([a, b], m) && Expand([a, b], m) == [a, a, b]
  {
    assert [a, b][..1] == [a];
    assert [a][..0] == [];
    assert Repeat(a, 2) == [a, a];
    assert Repeat(b, 1) == [b];
    assert Expand([a], m) == [a, a];
  }

  lemma StarvedFrom2<T>(a: T, b: T, m: map<T, Status>)
    requires a != b && a in m && b in m
    requires m[a] == Status(true, false, 2) && m[b] == Status(true, false, 1)
    ensures Covers([a, a, b], m) && Select([a, a, b], m, 2) == Pick(2, 0)
  {
    var e := [a, a, b];
    assert FirstIndexOf(e, b) == 2 by {
      assert FirstIndexOf(e[1..], b) == 1 + FirstIndexOf(e[1..][1..], b);
    }
    assert ScanFrom(e, m, 2, 0, Ready).None?;
    assert ScanFrom(e, m, 2, 0, Up) == Some(0);
  }

  lemma StarvedFrom0<T>(a: T, b: T, m: map<T, Status>)
    requires a in m && b in m
    requires m[a] == Status(true, false, 2) && m[b] == Status(true, false, 1)
    ensures Covers([a, a, b], m) && Select([a, a, b], m, 0) == Pick(0, 1)
  {
    var e := [a, a, b];
    assert FirstIndexOf(e, a) == 0;
    assert ScanFrom(e, m, 0, 0, Ready).None?;
    assert ScanFrom(e, m, 0, 0, Up) == Some(0);
  }

  lemma StarvedFrom1<T>(a: T, b: T, m: map<T, Status>)
    requires a in m && b in m
    requires m[a] == Status(true, false, 2) && m[b] == Status(true, false, 1)
    ensures Covers([a, a, b], m) && Select([a, a, b], m, 1) == Pick(1, 1)
  {
    var e := [a, a, b];
    assert FirstIndexOf(e, a) == 0;
    assert ScanFrom(e, m, 1, 0, Ready).None?;
    assert ScanFrom(e, m, 1, 0, Up) == Some(0);
  }

  /** A selection that leaves the cursor where it was is repeated by every later selection. */
  lemma {:induction false} PicksStuck<T>(e: seq<T>, m: map<T, Status>, c: nat, p: nat, k: nat)
    requires Covers(e, m) && Select(e, m, c) == Pick(p, c)
    ensures Picks(e, m, c, k) == Repeat(p, k)
  {
    if k > 0 {
      PicksStuck(e, m, c, p, k - 1);
      assert [p] + Repeat(p, k - 1) == Repeat(p, k);
    }
  }

  /** The candidates at the given positions of a list, in order. */
  function Served<T>(e: seq<T>, ps: seq<nat>): (r: seq<T>)
    requires forall t | 0 <= t < |ps| :: ps[t] < |e|
    ensures |r| == |ps| && forall t | 0 <= t < |ps| :: r[t] == e[ps[t]]
  {
    if ps == [] then [] else Served(e, ps[..|ps| - 1]) + [e[ps[|ps| - 1]]]
  }

  /** On a fully healthy list, as many selections as the list is long serve every slot once: the same multiset. */
  lemma ServedRotation<T>(e: seq<T>, m: map<T, Status>, c: nat)
    requires Covers(e, m) && AllReady(e, m) && c < |e|
    ensures var ps := Picks(e, m, c, |e|);
      && |ps| == |e|
      && (forall t | 0 <= t < |ps| :: ps[t] < |e|)
      && multiset(Served(e, ps)) == multiset(e)
  {
    var n := |e|;
    PicksRotate(e, m, c, n);
    var ps := Picks(e, m, c, n);
    var r := Served(e, ps);
    forall t | 0 <= t < n ensures r[t] == (e[c..] + e[..c])[t] {
      ModWrap(c + t, n);
    }
    assert r == e[c..] + e[..c];
    assert e == e[..c] + e[c..];
  }

  /** The expansion of a fully healthy pool is fully healthy. */
  lemma ExpandAllReady<T>(list: seq<T>, m: map<T, Status>)
    requires Covers(list, m) && AllReady(list, m)
    ensures Covers(Expand(list, m), m) && AllReady(Expand(list, m), m)
  {
    var e := Expand(list, m);
    ExpandCovers(list, m);
    forall i | 0 <= i < |e| ensures Ready(m[e[i]]) {
      var j :| 0 <= j < |list| && list[j] == e[i];
    }
  }

  /**
   * Weighted round robin over a pool whose servers are all alive and healthy:
   * from any cursor inside the expansion list, as many selections as the list
   * is long return each server weight times per occurrence in the pool.
   */
  lemma WeightedShare<T>(list: seq<T>, m: map<T, Status>, c: nat, x: T)
    requires Covers(list, m) && AllReady(list, m) && x in m
    requires c < |Expand(list, m)|
    ensures Covers(Expand(list, m), m)
    ensures var e := Expand(list, m); var ps := Picks(e, m, c, |e|);
      && |ps| == |e|
      && (forall t | 0 <= t < |ps| :: ps[t] < |e|)
      && multiset(Served(e, ps))[x] == m[x].weight * multiset(list)[x]
  {
    ExpandAllReady(list, m);
    ServedRotation(Expand(list, m), m, c);
    ExpandMultiplicity(list, m, x);
    if !m[x].alive {
      assert x !in list;
    }
  }
}
