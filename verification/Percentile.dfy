/** The interpolated percentile of the launch statistics, over real numbers. */
module Percentile {
  import opened Wrappers

  // ----- the sorted copy -----

  predicate IsSorted(s: seq<real>) {
    forall i, j :: 0 <= i <= j < |s| ==> s[i] <= s[j]
  }

  lemma HeadAndTail(s: seq<real>)
    requires s != []
    ensures multiset(s) == multiset{s[0]} + multiset(s[1..])
  {
    assert s == [s[0]] + s[1..];
  }

  lemma SortedWithHead(x: real, s: seq<real>)
    requires IsSorted(s) && forall y :: y in multiset(s) ==> x <= y
    ensures IsSorted([x] + s) && multiset([x] + s) == multiset{x} + multiset(s)
  {
    forall i | 0 <= i < |s| ensures x <= s[i] {
      assert s[i] in multiset(s);
    }
  }

  lemma HeadIsLeast(s: seq<real>, x: real)
    requires IsSorted(s) && x in multiset(s)
    ensures s[0] <= x
  {
    var i :| 0 <= i < |s| && s[i] == x;
  }

  lemma HeadsAreLeast(x: real, s: seq<real>)
    requires IsSorted(s) && (s != [] ==> x <= s[0])
    ensures forall y :: y in multiset(s) ==> x <= y
  {
    forall y | y in multiset(s) ensures x <= y {
      HeadIsLeast(s, y);
    }
  }

  lemma InsertedBehind(x: real, s: seq<real>, r: seq<real>)
    requires IsSorted(s) && s != [] && s[0] < x
    requires IsSorted(r) && multiset(r) == multiset{x} + multiset(s[1..])
    ensures IsSorted([s[0]] + r) && multiset([s[0]] + r) == multiset{x} + multiset(s)
  {
    HeadAndTail(s);
    HeadsAreLeast(s[0], s[1..]);
    SortedWithHead(s[0], r);
  }

  function Insert(x: real, s: seq<real>): (r: seq<real>)
    requires IsSorted(s)
    ensures IsSorted(r) && multiset(r) == multiset{x} + multiset(s)
  {
    if s == [] || x <= s[0] then
      HeadsAreLeast(x, s);
      SortedWithHead(x, s);
      [x] + s
    else
      var r := Insert(x, s[1..]);
      InsertedBehind(x, s, r);
      [s[0]] + r
  }

  function Sorted(xs: seq<real>): (s: seq<real>)
    ensures IsSorted(s) && multiset(s) == multiset(xs)
  {
    if xs == [] then []
    else
      HeadAndTail(xs);
      Insert(xs[0], Sorted(xs[1..]))
  }

  lemma SameLength(a: seq<real>, b: seq<real>)
    requires multiset(a) == multiset(b)
    ensures |a| == |b|
  {
    assert |a| == |multiset(a)| && |b| == |multiset(b)|;
  }

  /** There is one way to sort. */
  lemma {:induction false} SortedIsUnique(a: seq<real>, b: seq<real>)
    requires IsSorted(a) && IsSorted(b) && multiset(a) == multiset(b)
    ensures a == b
    decreases |a|
  {
    SameLength(a, b);
    if a != [] {
      var x, y := a[0], b[0];
      HeadAndTail(a);
      HeadAndTail(b);
      HeadIsLeast(a, y);
      HeadIsLeast(b, x);
      TailsAgree(multiset(a[1..]), multiset(b[1..]), x);
      SortedIsUnique(a[1..], b[1..]);
      assert a == [x] + a[1..] && b == [x] + b[1..];
    }
  }

  lemma TailsAgree(a: multiset<real>, b: multiset<real>, x: real)
    requires multiset{x} + a == multiset{x} + b
    ensures a == b
  {
    assert a == multiset{x} + a - multiset{x};
    assert b == multiset{x} + b - multiset{x};
  }

  // ----- the percentile -----

  function Position(n: nat, p: real): real {
    (n - 1) as real * p
  }

  function Between(a: real, b: real, t: real): real {
    a + (b - a) * t
  }

  /** The value at the percentile of a sorted list. */
  function At(s: seq<real>, p: real): real
    requires s != [] && 0.0 <= p <= 1.0
  {
    var k := Position(|s|, p);
    PositionIsInside(|s|, p);
    var f := k.Floor;
    var c := if f + 1 < |s| - 1 then f + 1 else |s| - 1;
    Between(s[f], s[c], k - f as real)
  }

  lemma Product(x: real, t: real)
    requires x >= 0.0 && t >= 0.0
    ensures x * t >= 0.0
  {
  }

  lemma ProductGrows(x: real, t: real, u: real)
    requires x >= 0.0 && t <= u
    ensures x * t <= x * u
  {
    Product(x, u - t);
    assert x * (u - t) == x * u - x * t;
  }

  lemma ProductIsInside(m: real, p: real)
    requires 0.0 <= m && 0.0 <= p <= 1.0
    ensures 0.0 <= m * p <= m
  {
    Product(m, p);
    Product(m, 1.0 - p);
    assert m * (1.0 - p) == m - m * p;
  }

  lemma FloorIsInside(k: real, n: int)
    requires 0.0 <= k <= n as real
    ensures 0 <= k.Floor <= n
  {
  }

  lemma PositionIsInRange(n: nat, p: real)
    requires n > 0 && 0.0 <= p <= 1.0
    ensures 0.0 <= Position(n, p) <= (n - 1) as real
  {
    ProductIsInside((n - 1) as real, p);
  }

  lemma PositionIsInside(n: nat, p: real)
    requires n > 0 && 0.0 <= p <= 1.0
    ensures 0.0 <= Position(n, p) <= (n - 1) as real
    ensures 0 <= Position(n, p).Floor <= n - 1
  {
    PositionIsInRange(n, p);
    FloorIsInside(Position(n, p), n - 1);
  }

  /** The percentile of a list in any order. */
  function Of(xs: seq<real>, p: real): real
    requires xs != [] && 0.0 <= p <= 1.0
  {
    SameLength(xs, Sorted(xs));
    At(Sorted(xs), p)
  }

  // ----- the two reports, as Python computes them -----

  datatype Outcome = Value(x: real) | IndexError

  /** A negative index counts from the end. */
  function Item(s: seq<real>, i: int): Outcome {
    if 0 <= i < |s| then Value(s[i])
    else if -|s| <= i < 0 then Value(s[|s| + i])
    else IndexError
  }

  /** `int` of a float drops its fraction. */
  function Int(k: real): int {
    if k >= 0.0 then k.Floor else -((-k).Floor)
  }

  function Interpolated(s: seq<real>, p: real): Outcome {
    var k := Position(|s|, p);
    var f := Int(k);
    var c := if f + 1 < |s| - 1 then f + 1 else |s| - 1;
    match (Item(s, f), Item(s, c))
    case (Value(x), Value(y)) => Value(Between(x, y, k - f as real))
    case _ => IndexError
  }

  function OrNone(xs: seq<real>, p: real): Option<Outcome> {
    var s := Sorted(xs);
    if s == [] then None else Some(Interpolated(s, p))
  }

  function OrFails(xs: seq<real>, p: real): Outcome {
    Interpolated(Sorted(xs), p)
  }

  /** A percentile can be read exactly when its position falls inside the list, counted from either end:
  never in an empty one, not even at 0. */
  lemma FailsOutside(s: seq<real>, p: real)
    ensures Interpolated(s, p).IndexError? <==> !(-|s| <= Int(Position(|s|, p)) < |s|)
  {
  }

  /** The two reports give the percentile of every list but the empty one: on that one has no value, and
  the other fails. */
  lemma TheTwoReportsAgree(xs: seq<real>, p: real)
    requires 0.0 <= p <= 1.0
    ensures OrNone(xs, p) == if xs == [] then None else Some(Value(Of(xs, p)))
    ensures OrFails(xs, p) == if xs == [] then IndexError else Value(Of(xs, p))
  {
    var s := Sorted(xs);
    SameLength(xs, s);
    FailsOutside(s, p);
    if s != [] {
      PositionIsInside(|s|, p);
    }
  }

  // ----- what it promises -----

  lemma BetweenIsBetween(a: real, b: real, t: real)
    requires a <= b && 0.0 <= t <= 1.0
    ensures a <= Between(a, b, t) <= b
  {
    ProductGrows(b - a, 0.0, t);
    ProductGrows(b - a, t, 1.0);
  }

  lemma BetweenGrows(a: real, b: real, t: real, u: real)
    requires a <= b && t <= u
    ensures Between(a, b, t) <= Between(a, b, u)
  {
    ProductGrows(b - a, t, u);
  }

  /** The value lies between the two elements around its position: what stands up to the position is no
  greater, what stands from the next one on is no less. */
  lemma RankIsRight(s: seq<real>, p: real)
    requires IsSorted(s) && s != [] && 0.0 <= p <= 1.0
    ensures var k := Position(|s|, p);
            && (forall i :: 0 <= i < |s| && i as real <= k ==> s[i] <= At(s, p))
            && (forall i :: 0 <= i < |s| && k <= i as real ==> At(s, p) <= s[i])
  {
    var k := Position(|s|, p);
    PositionIsInside(|s|, p);
    var f := k.Floor;
    var c := if f + 1 < |s| - 1 then f + 1 else |s| - 1;
    BetweenIsBetween(s[f], s[c], k - f as real);
    if k == f as real {
      assert (s[c] - s[f]) * (k - f as real) == 0.0;
    }
  }

  /** A percentile lies between the least and the greatest element, and is the least at 0 and the greatest
  at 1. */
  lemma LiesInRange(xs: seq<real>, p: real)
    requires xs != [] && 0.0 <= p <= 1.0
    ensures var least, greatest := Of(xs, 0.0), Of(xs, 1.0);
            && least in xs && greatest in xs
            && (forall x :: x in xs ==> least <= x <= greatest)
            && least <= Of(xs, p) <= greatest
  {
    var s := Sorted(xs);
    var n := |s|;
    SameLength(s, xs);
    Extremes(s);
    RankIsRight(s, p);
    PositionIsInside(n, p);
    assert 0 as real <= Position(n, p) <= (n - 1) as real;
    assert s[0] in multiset(s) && s[n - 1] in multiset(s);
    forall x | x in xs ensures s[0] <= x <= s[n - 1] {
      assert x in multiset(s);
      var i :| 0 <= i < n && s[i] == x;
    }
  }

  lemma Extremes(s: seq<real>)
    requires IsSorted(s) && s != []
    ensures At(s, 0.0) == s[0] && At(s, 1.0) == s[|s| - 1]
  {
    HitsEveryElement(s, 0, 0.0);
    HitsEveryElement(s, |s| - 1, 1.0);
  }

  /** At the i-th of the n - 1 equal steps it is the i-th element. */
  lemma HitsEveryElement(s: seq<real>, i: nat, p: real)
    requires IsSorted(s) && i < |s| && 0.0 <= p <= 1.0 && Position(|s|, p) == i as real
    ensures At(s, p) == s[i]
  {
    RankIsRight(s, p);
  }

  /** Between two neighbours it is linear: t of the way from the i-th to the next element. */
  lemma LinearBetweenNeighbours(s: seq<real>, i: nat, t: real, p: real)
    requires IsSorted(s) && i + 1 < |s| && 0.0 <= t <= 1.0
    requires 0.0 <= p <= 1.0 && (|s| - 1) as real * p == i as real + t
    ensures At(s, p) == (1.0 - t) * s[i] + t * s[i + 1]
  {
    var k := Position(|s|, p);
    if t == 1.0 {
      HitsEveryElement(s, i + 1, p);
    } else {
      assert k.Floor == i;
      Weights(s[i], s[i + 1], t);
    }
  }

  lemma Weights(a: real, b: real, t: real)
    ensures Between(a, b, t) == (1.0 - t) * a + t * b
  {
    assert (b - a) * t == b * t - a * t;
  }

  /** Truncation drops a fraction of the number's own sign. */
  lemma IntDropsAFraction(k: real)
    ensures k >= 0.0 ==> 0.0 <= Int(k) as real <= k < Int(k) as real + 1.0
    ensures k <= 0.0 ==> Int(k) as real - 1.0 < k <= Int(k) as real <= 0.0
  {
  }

  /** An index from the end is that many elements before it. */
  lemma ItemsFromBothEnds(s: seq<real>, i: nat)
    ensures Item(s, i) == if i < |s| then Value(s[i]) else IndexError
    ensures i > 0 ==> Item(s, 0 - i) == if i <= |s| then Value(s[|s| - i]) else IndexError
  {
  }

  /** It never falls as p grows, across the segments between the elements too. */
  lemma Monotone(xs: seq<real>, p: real, q: real)
    requires xs != [] && 0.0 <= p <= q <= 1.0
    ensures Of(xs, p) <= Of(xs, q)
  {
    var s := Sorted(xs);
    var n := |s|;
    SameLength(s, xs);
    ProductGrows((n - 1) as real, p, q);
    MonotoneAt(s, p, q);
  }

  lemma MonotoneAt(s: seq<real>, p: real, q: real)
    requires IsSorted(s) && s != [] && 0.0 <= p <= 1.0 && 0.0 <= q <= 1.0 && Position(|s|, p) <= Position(|s|, q)
    ensures At(s, p) <= At(s, q)
  {
    var n := |s|;
    var j, k := Position(n, p), Position(n, q);
    PositionIsInside(n, p);
    PositionIsInside(n, q);
    var f := j.Floor;
    if f == k.Floor {
      var c := if f + 1 < n - 1 then f + 1 else n - 1;
      BetweenGrows(s[f], s[c], j - f as real, k - f as real);
    } else {
      assert j <= (f + 1) as real <= k;
      RankIsRight(s, p);
      RankIsRight(s, q);
      assert At(s, p) <= s[f + 1] <= At(s, q);
    }
  }

  /** The order of the input plays no part. */
  lemma OrderDoesNotMatter(xs: seq<real>, ys: seq<real>, p: real)
    requires multiset(xs) == multiset(ys)
    ensures OrNone(xs, p) == OrNone(ys, p) && OrFails(xs, p) == OrFails(ys, p)
  {
    SortedIsUnique(Sorted(xs), Sorted(ys));
  }
}
