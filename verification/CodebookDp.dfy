/** The exact one-dimensional K-level quantiser: points v[0] < v[1] < ... with weights w, levels drawn from the points.
    Values are twice the e2m1 values and errors four times the squared errors, so that all arithmetic is on integers. */
module CodebookDp {

  function Sq(x: int): (s: int)
    ensures s >= 0
  {
    x * x
  }

  /** Points with their weights, ascending. */
  datatype Points = Points(v: seq<int>, w: seq<nat>) {
    ghost predicate Valid() { |v| == |w| && forall i, j :: 0 <= i < j < |v| ==> v[i] < v[j] }
  }

  /** Levels as a strictly increasing list of point indices: a subset of the points. */
  ghost predicate Levels(p: Points, r: seq<int>) {
    (forall a :: 0 <= a < |r| ==> 0 <= r[a] < |p.v|) && forall a, b :: 0 <= a < b < |r| ==> r[a] < r[b]
  }

  /** Squared distance to the nearest of the levels. */
  function Near(p: Points, r: seq<int>, x: int): (d: int)
    requires |r| > 0 && forall a :: 0 <= a < |r| ==> 0 <= r[a] < |p.v|
    ensures d >= 0
  {
    var last := Sq(x - p.v[r[|r| - 1]]);
    if |r| == 1 then last else
      var rest := Near(p, r[..|r| - 1], x);
      if rest <= last then rest else last
  }

  /** Weighted squared error of the first n points under nearest-level assignment. */
  function Error(p: Points, r: seq<int>, n: nat): (e: int)
    requires |p.v| == |p.w| && n <= |p.v| && |r| > 0 && forall a :: 0 <= a < |r| ==> 0 <= r[a] < |p.v|
    ensures e >= 0
  {
    if n == 0 then 0 else Error(p, r, n - 1) + Times(p.w[n - 1], Near(p, r, p.v[n - 1]))
  }

  function Times(w: nat, d: int): (x: int)
    requires d >= 0
    ensures x >= 0
  {
    w * d
  }

  /** Weighted squared error of points i .. n - 1 when all go to point r. */
  function Cluster(p: Points, i: nat, n: nat, r: nat): (e: int)
    requires |p.v| == |p.w| && i <= n <= |p.v| && r < |p.v|
    ensures e >= 0
  {
    if n == i then 0 else Cluster(p, i, n - 1, r) + Times(p.w[n - 1], Sq(p.v[n - 1] - p.v[r]))
  }

  lemma TimesMono(w: nat, a: int, b: int)
    requires 0 <= a <= b
    ensures Times(w, a) <= Times(w, b)
  {
  }

  /** Of two levels a < b the lower is at least as near exactly up to their midpoint. */
  lemma Midpoint(x: int, a: int, b: int)
    requires a < b
    ensures Sq(x - a) <= Sq(x - b) <==> 2 * x <= a + b
  {
    var u, v := b - a, a + b - 2 * x;
    assert Sq(x - b) - Sq(x - a) == u * v;
    SignOfProduct(u, v);
  }

  lemma SignOfProduct(u: int, v: int)
    requires u > 0
    ensures u * v >= 0 <==> v >= 0
  {
    assert v >= 0 ==> u * v >= 0;
    assert v <= -1 ==> u * v <= -u;
  }

  // ------------------------------------------------------------------ contiguous clusters lose nothing

  /** Up to the midpoint of the last two levels the last one is not needed. */
  lemma NearFront(p: Points, r: seq<int>, x: int)
    requires p.Valid() && Levels(p, r) && |r| >= 2 && 2 * x <= p.v[r[|r| - 2]] + p.v[r[|r| - 1]]
    ensures Near(p, r, x) == Near(p, r[..|r| - 1], x)
  {
    var k := |r|;
    var front := r[..k - 1];
    Midpoint(x, p.v[r[k - 2]], p.v[r[k - 1]]);
    assert front[|front| - 1] == r[k - 2];
    assert Near(p, front, x) <= Sq(x - p.v[r[k - 2]]);
  }

  /** Beyond it the last one is nearest. */
  lemma {:induction false} NearBack(p: Points, r: seq<int>, x: int, b: int)
    requires p.Valid() && Levels(p, r) && |r| >= 1 && 2 * x > p.v[r[|r| - 1]] + b && forall a :: 0 <= a < |r| ==> p.v[r[a]] < b
    ensures Near(p, r, x) > Sq(x - b)
  {
    Midpoint(x, p.v[r[|r| - 1]], b);
    if |r| > 1 {
      assert r[..|r| - 1][|r| - 2] == r[|r| - 2];
      assert p.v[r[|r| - 2]] < p.v[r[|r| - 1]];
      NearBack(p, r[..|r| - 1], x, b);
    }
  }

  lemma NearLast(p: Points, r: seq<int>, x: int)
    requires p.Valid() && Levels(p, r) && |r| >= 2 && 2 * x > p.v[r[|r| - 2]] + p.v[r[|r| - 1]]
    ensures Near(p, r, x) == Sq(x - p.v[r[|r| - 1]])
  {
    var k := |r|;
    var front := r[..k - 1];
    assert front[|front| - 1] == r[k - 2];
    forall a | 0 <= a < |front|
      ensures p.v[front[a]] < p.v[r[k - 1]]
    {
      assert front[a] == r[a];
    }
    NearBack(p, front, x, p.v[r[k - 1]]);
  }

  /** The number of leading points that are at least as near to the second last level as to the last. */
  lemma Border(p: Points, r: seq<int>, n: nat) returns (i: nat)
    requires p.Valid() && Levels(p, r) && |r| >= 2 && r[|r| - 1] < n <= |p.v|
    ensures r[|r| - 2] < i <= r[|r| - 1]
    ensures forall t :: 0 <= t < i ==> 2 * p.v[t] <= p.v[r[|r| - 2]] + p.v[r[|r| - 1]]
    ensures forall t :: i <= t < n ==> 2 * p.v[t] > p.v[r[|r| - 2]] + p.v[r[|r| - 1]]
  {
    var a, b := r[|r| - 2], r[|r| - 1];
    i := a + 1;
    while 2 * p.v[i] <= p.v[a] + p.v[b]
      invariant a < i <= b
      invariant 2 * p.v[i - 1] <= p.v[a] + p.v[b]
      decreases b - i
    {
      i := i + 1;
    }
  }

  /** Errors of a prefix agree when the nearest distances do. */
  lemma {:induction false} ErrorFront(p: Points, r: seq<int>, n: nat)
    requires p.Valid() && Levels(p, r) && |r| >= 2 && n <= |p.v|
    requires forall t :: 0 <= t < n ==> 2 * p.v[t] <= p.v[r[|r| - 2]] + p.v[r[|r| - 1]]
    ensures Levels(p, r[..|r| - 1]) && Error(p, r, n) == Error(p, r[..|r| - 1], n)
  {
    if n > 0 {
      ErrorFront(p, r, n - 1);
      NearFront(p, r, p.v[n - 1]);
    }
  }

  lemma {:induction false} ErrorBack(p: Points, r: seq<int>, i: nat, n: nat)
    requires p.Valid() && Levels(p, r) && |r| >= 2 && i <= n <= |p.v|
    requires forall t :: i <= t < n ==> 2 * p.v[t] > p.v[r[|r| - 2]] + p.v[r[|r| - 1]]
    ensures Error(p, r, n) == Error(p, r, i) + Cluster(p, i, n, r[|r| - 1])
  {
    if n > i {
      ErrorBack(p, r, i, n - 1);
      NearLast(p, r, p.v[n - 1]);
    }
  }

  /** Nearest assignment cuts the points into a prefix served by all levels but the last and a cluster of the last. */
  lemma Cut(p: Points, r: seq<int>, n: nat) returns (i: nat)
    requires p.Valid() && Levels(p, r) && |r| >= 2 && r[|r| - 1] < n <= |p.v|
    ensures r[|r| - 2] < i <= r[|r| - 1] && Levels(p, r[..|r| - 1])
    ensures Error(p, r, n) == Error(p, r[..|r| - 1], i) + Cluster(p, i, n, r[|r| - 1])
  {
    i := Border(p, r, n);
    ErrorBack(p, r, i, n);
    ErrorFront(p, r, i);
  }

  // ------------------------------------------------------------------ the recurrence

  /** The first best representative of points i .. n - 1 among points i .. q. */
  function BestRep(p: Points, i: nat, n: nat, q: nat): (r: nat)
    requires |p.v| == |p.w| && i <= q < n <= |p.v|
    ensures i <= r <= q
  {
    if q == i then i else
      var r := BestRep(p, i, n, q - 1);
      if Cluster(p, i, n, q) < Cluster(p, i, n, r) then q else r
  }

  lemma {:induction false} BestRepIsBest(p: Points, i: nat, n: nat, q: nat, u: nat)
    requires |p.v| == |p.w| && i <= u <= q < n <= |p.v|
    ensures Cluster(p, i, n, BestRep(p, i, n, q)) <= Cluster(p, i, n, u)
  {
    if u < q {
      BestRepIsBest(p, i, n, q - 1, u);
    }
  }

  function Rep(p: Points, i: nat, j: nat): (r: nat)
    requires |p.v| == |p.w| && i <= j < |p.v|
    ensures i <= r <= j
  {
    BestRep(p, i, j + 1, j)
  }

  /** The error of points i .. j under one representative. */
  function Cost(p: Points, i: nat, j: nat): int
    requires |p.v| == |p.w| && i <= j < |p.v|
  {
    Cluster(p, i, j + 1, Rep(p, i, j))
  }

  /** The value of k clusters on points 0 .. j. */
  function Best(p: Points, k: nat, j: nat): int
    requires |p.v| == |p.w| && 1 <= k && k - 1 <= j < |p.v|
    decreases k, 2, 0
  {
    if k == 1 then Cost(p, 0, j) else SplitValue(p, k, j, BestFrom(p, k, j, j))
  }

  /** ... when the last cluster starts at point from. */
  function SplitValue(p: Points, k: nat, j: nat, from: nat): int
    requires |p.v| == |p.w| && 2 <= k && k - 1 <= from <= j < |p.v|
    decreases k, 0, 0
  {
    Best(p, k - 1, from - 1) + Cost(p, from, j)
  }

  /** The first best start among k - 1 .. q. */
  function BestFrom(p: Points, k: nat, j: nat, q: nat): (from: nat)
    requires |p.v| == |p.w| && 2 <= k && k - 1 <= q <= j < |p.v|
    ensures k - 1 <= from <= q
    decreases k, 1, q
  {
    if q == k - 1 then k - 1 else
      var from := BestFrom(p, k, j, q - 1);
      if SplitValue(p, k, j, q) < SplitValue(p, k, j, from) then q else from
  }

  lemma {:induction false} BestFromIsBest(p: Points, k: nat, j: nat, q: nat, u: nat)
    requires |p.v| == |p.w| && 2 <= k && k - 1 <= u <= q <= j < |p.v|
    ensures SplitValue(p, k, j, BestFrom(p, k, j, q)) <= SplitValue(p, k, j, u)
  {
    if u < q {
      BestFromIsBest(p, k, j, q - 1, u);
    }
  }

  // ------------------------------------------------------------------ the recurrence is a lower bound

  lemma {:induction false} OneCluster(p: Points, r: seq<int>, n: nat)
    requires p.Valid() && Levels(p, r) && |r| == 1 && n <= |p.v|
    ensures Error(p, r, n) == Cluster(p, 0, n, r[0])
  {
    if n > 0 {
      OneCluster(p, r, n - 1);
    }
  }

  lemma {:induction false} LevelAtLeast(p: Points, r: seq<int>, a: nat)
    requires Levels(p, r) && a < |r|
    ensures r[a] >= a
  {
    if a > 0 {
      LevelAtLeast(p, r, a - 1);
    }
  }

  lemma CostBound(p: Points, i: nat, j: nat, r: nat)
    requires |p.v| == |p.w| && i <= r <= j < |p.v|
    ensures Cost(p, i, j) <= Cluster(p, i, j + 1, r)
  {
    BestRepIsBest(p, i, j + 1, j, r);
  }

  lemma BestBound(p: Points, k: nat, j: nat, from: nat)
    requires |p.v| == |p.w| && 2 <= k && k - 1 <= from <= j < |p.v|
    ensures Best(p, k, j) <= Best(p, k - 1, from - 1) + Cost(p, from, j)
  {
    BestFromIsBest(p, k, j, j, from);
  }

  /** No set of k levels among the points up to j does better on them than the recurrence: an arbitrary set, under nearest
      assignment, is itself a split into contiguous clusters. */
  lemma {:induction false} LowerBound(p: Points, r: seq<int>, k: nat, j: nat)
    requires p.Valid() && Levels(p, r) && |r| == k > 0 && r[k - 1] <= j < |p.v|
    ensures k - 1 <= j && Best(p, k, j) <= Error(p, r, j + 1)
    decreases k, 1
  {
    LevelAtLeast(p, r, k - 1);
    if k == 1 {
      OneCluster(p, r, j + 1);
      CostBound(p, 0, j, r[0]);
    } else {
      LowerBoundStep(p, r, k, j);
    }
  }

  lemma {:induction false} LowerBoundStep(p: Points, r: seq<int>, k: nat, j: nat)
    requires p.Valid() && Levels(p, r) && |r| == k >= 2 && r[k - 1] <= j < |p.v| && k - 1 <= j
    ensures Best(p, k, j) <= Error(p, r, j + 1)
    decreases k, 0
  {
    var i := Cut(p, r, j + 1);
    LevelAtLeast(p, r, k - 2);
    var front, last, end := r[..k - 1], r[k - 1], i - 1;
    assert front[k - 2] == r[k - 2] && end + 1 == i;
    LowerBound(p, front, k - 1, end);
    SplitBound(p, k, j, i, last, Error(p, front, i));
  }

  /** A split serves a prefix by k - 1 levels and the rest by one. */
  lemma SplitBound(p: Points, k: nat, j: nat, from: nat, last: nat, front: int)
    requires |p.v| == |p.w| && 2 <= k && k - 1 <= from <= last <= j < |p.v| && Best(p, k - 1, from - 1) <= front
    ensures Best(p, k, j) <= front + Cluster(p, from, j + 1, last)
  {
    BestBound(p, k, j, from);
    CostBound(p, from, j, last);
  }

  // ------------------------------------------------------------------ and it is attained

  /** The levels the backtracking collects from cell (k, j), ascending. */
  function Back(p: Points, k: nat, j: nat): (r: seq<int>)
    requires |p.v| == |p.w| && 1 <= k && k - 1 <= j < |p.v|
    ensures |r| == k && forall a :: 0 <= a < k ==> 0 <= r[a] < |p.v|
  {
    if k == 1 then [Rep(p, 0, j)]
    else
      var from := BestFrom(p, k, j, j);
      Back(p, k - 1, from - 1) + [Rep(p, from, j)]
  }

  /** Adding a level serves the points before i no worse and those from i on no worse than it alone does. */
  lemma {:induction false} ErrorAppend(p: Points, front: seq<int>, r: nat, i: nat, n: nat)
    requires p.Valid() && r < |p.v| && Levels(p, front + [r]) && Levels(p, front) && |front| > 0 && i <= n <= |p.v|
    ensures Error(p, front + [r], n) <= Error(p, front, i) + Cluster(p, i, n, r)
    decreases n
  {
    var all := front + [r];
    if n > 0 {
      var x := p.v[n - 1];
      assert all[..|all| - 1] == front;
      assert Near(p, all, x) <= Near(p, front, x) && Near(p, all, x) <= Sq(x - p.v[r]);
      if n > i {
        ErrorAppend(p, front, r, i, n - 1);
        TimesMono(p.w[n - 1], Near(p, all, x), Sq(x - p.v[r]));
      } else {
        ErrorAppend(p, front, r, i - 1, n - 1);
        TimesMono(p.w[n - 1], Near(p, all, x), Near(p, front, x));
      }
    }
  }

  lemma BackLevels(p: Points, front: seq<int>, r: int, i: nat)
    requires Levels(p, front) && |front| > 0 && front[|front| - 1] < i <= r < |p.v|
    ensures Levels(p, front + [r])
  {
    forall a, b | 0 <= a < b < |front| + 1
      ensures (front + [r])[a] < (front + [r])[b]
    {
      if b == |front| && a < b - 1 {
        assert front[a] < front[b - 1];
      }
    }
  }

  lemma BackStep(p: Points, k: nat, j: nat) returns (from: nat, r: nat)
    requires |p.v| == |p.w| && 2 <= k && k - 1 <= j < |p.v|
    ensures from == BestFrom(p, k, j, j) && k - 1 <= from <= r <= j && r == Rep(p, from, j)
    ensures Back(p, k, j) == Back(p, k - 1, from - 1) + [r]
    ensures Best(p, k, j) == Best(p, k - 1, from - 1) + Cluster(p, from, j + 1, r)
  {
    from := BestFrom(p, k, j, j);
    r := Rep(p, from, j);
  }

  /** r is k distinct points up to j whose nearest-level error on those points is the recurrence's value. */
  ghost predicate Attains(p: Points, r: seq<int>, k: nat, j: nat)
    requires p.Valid() && 1 <= k && k - 1 <= j < |p.v|
  {
    |r| == k && Levels(p, r) && r[k - 1] <= j && Error(p, r, j + 1) == Best(p, k, j)
  }

  lemma BackFirst(p: Points, j: nat)
    requires p.Valid() && j < |p.v|
    ensures Attains(p, Back(p, 1, j), 1, j)
  {
    OneCluster(p, Back(p, 1, j), j + 1);
  }

  /** The collected levels attain it. */
  lemma {:induction false} BackError(p: Points, k: nat, j: nat)
    requires p.Valid() && 1 <= k && k - 1 <= j < |p.v|
    ensures Attains(p, Back(p, k, j), k, j)
    decreases k
  {
    if k == 1 {
      BackFirst(p, j);
    } else {
      var from, r := BackStep(p, k, j);
      BackError(p, k - 1, from - 1);
      BackAppend(p, Back(p, k - 1, from - 1), Back(p, k, j), k, j, from, r);
    }
  }

  lemma BackAppend(p: Points, front: seq<int>, all: seq<int>, k: nat, j: nat, from: nat, r: nat)
    requires p.Valid() && 2 <= k && k - 1 <= from <= r <= j < |p.v| && all == front + [r] && Attains(p, front, k - 1, from - 1)
    requires Best(p, k, j) == Best(p, k - 1, from - 1) + Cluster(p, from, j + 1, r)
    ensures Attains(p, all, k, j)
  {
    BackLevels(p, front, r, from);
    ErrorAppend(p, front, r, from, j + 1);
    LowerBound(p, all, k, j);
  }

  // ------------------------------------------------------------------ the tables

  /** csum[r, t]: errors of points i .. i + t under representative i + r, by running sums. */
  method RunningSums(p: Points, i: nat) returns (csum: array2<int>)
    requires p.Valid() && i < |p.v|
    ensures fresh(csum) && csum.Length0 == csum.Length1 == |p.v| - i
    ensures forall r, t :: 0 <= r < |p.v| - i && 0 <= t < |p.v| - i ==> csum[r, t] == Cluster(p, i, i + t + 1, i + r)
  {
    var n := |p.v| - i;
    csum := new int[n, n];
    for r := 0 to n
      invariant forall q, t :: 0 <= q < r && 0 <= t < n ==> csum[q, t] == Cluster(p, i, i + t + 1, i + q)
    {
      var sum := 0;
      for t := 0 to n
        invariant sum == Cluster(p, i, i + t, i + r)
        invariant forall q, u :: 0 <= q < r && 0 <= u < n ==> csum[q, u] == Cluster(p, i, i + u + 1, i + q)
        invariant forall u :: 0 <= u < t ==> csum[r, u] == Cluster(p, i, i + u + 1, i + r)
      {
        sum := sum + Times(p.w[i + t], Sq(p.v[i + t] - p.v[i + r]));
        csum[r, t] := sum;
      }
    }
  }

  /** argmin of the first j - i + 1 entries of a column. */
  method BestInColumn(p: Points, csum: array2<int>, i: nat, j: nat) returns (c: int, rep: int)
    requires p.Valid() && i <= j < |p.v| && csum.Length0 == csum.Length1 == |p.v| - i
    requires forall r, t :: 0 <= r < |p.v| - i && 0 <= t < |p.v| - i ==> csum[r, t] == Cluster(p, i, i + t + 1, i + r)
    ensures c == Cost(p, i, j) && rep == Rep(p, i, j)
  {
    var r, t := 0, j - i;
    c := csum[0, t];
    for q := 1 to t + 1
      invariant i + r == BestRep(p, i, j + 1, i + q - 1) && c == csum[r, t]
    {
      if csum[q, t] < c {
        c, r := csum[q, t], q;
      }
    }
    rep := i + r;
  }

  /** cost[i, j] and rep[i, j] for i below n. */
  ghost predicate Costs(p: Points, cost: array2<int>, rep: array2<int>, n: int)
    requires p.Valid()
    reads cost, rep
  {
    && cost.Length0 == cost.Length1 == rep.Length0 == rep.Length1 == |p.v|
    && forall i, j :: 0 <= i <= j < |p.v| && i < n ==> cost[i, j] == Cost(p, i, j) && rep[i, j] == Rep(p, i, j)
  }

  method FillCosts(p: Points) returns (cost: array2<int>, rep: array2<int>)
    requires p.Valid()
    ensures fresh(cost) && fresh(rep) && cost != rep && Costs(p, cost, rep, |p.v|)
  {
    var m := |p.v|;
    cost, rep := new int[m, m], new int[m, m];
    for i := 0 to m
      invariant Costs(p, cost, rep, i)
    {
      FillCostRow(p, i, cost, rep);
    }
  }

  method FillCostRow(p: Points, i: nat, cost: array2<int>, rep: array2<int>)
    requires p.Valid() && i < |p.v| && cost != rep && Costs(p, cost, rep, i)
    modifies cost, rep
    ensures Costs(p, cost, rep, i + 1)
  {
    var csum := RunningSums(p, i);
    for j := i to |p.v|
      invariant Costs(p, cost, rep, i)
      invariant forall r, t :: 0 <= r < |p.v| - i && 0 <= t < |p.v| - i ==> csum[r, t] == Cluster(p, i, i + t + 1, i + r)
      invariant forall u :: i <= u < j ==> cost[i, u] == Cost(p, i, u) && rep[i, u] == Rep(p, i, u)
    {
      cost[i, j], rep[i, j] := BestInColumn(p, csum, i, j);
    }
  }

  /** Rows 1 .. n - 1 of D and P; entries the source leaves infinite are never read. */
  ghost predicate Rows(p: Points, d: array2<int>, s: array2<int>, n: int)
    requires p.Valid()
    reads d, s
  {
    && d.Length1 == s.Length1 == |p.v| && d.Length0 == s.Length0
    && forall k, j :: 1 <= k < n && k < d.Length0 && k - 1 <= j < |p.v| ==>
         d[k, j] == Best(p, k, j) && (k >= 2 ==> s[k, j] == BestFrom(p, k, j, j))
  }

  /** Facts about the recurrence kept closed: they open only where Opens(true) is mentioned. */
  ghost predicate Opens(o: bool) { true }

  ghost predicate ValueIs(p: Points, k: nat, j: nat, from: nat, y: int)
    requires |p.v| == |p.w| && 2 <= k && k - 1 <= from <= j < |p.v|
  {
    forall o {:trigger Opens(o)} :: o ==> y == SplitValue(p, k, j, from)
  }

  ghost predicate FromIs(p: Points, k: nat, j: nat, q: nat, from: nat, x: int)
    requires |p.v| == |p.w| && 2 <= k && k - 1 <= q <= j < |p.v|
  {
    k - 1 <= from <= q && ValueIs(p, k, j, from, x) && forall o {:trigger Opens(o)} :: o ==> from == BestFrom(p, k, j, q)
  }

  method SplitAt(p: Points, cost: array2<int>, rep: array2<int>, d: array2<int>, s: array2<int>, k: nat, j: nat, from: nat) returns (y: int)
    requires p.Valid() && 2 <= k < d.Length0 && k - 1 <= from <= j < |p.v| && Costs(p, cost, rep, |p.v|) && Rows(p, d, s, k)
    ensures ValueIs(p, k, j, from, y)
  {
    y := d[k - 1, from - 1] + cost[from, j];
    assert y == SplitValue(p, k, j, from);
  }

  /** The inner minimum over the splits of one cell. */
  method BestSplit(p: Points, cost: array2<int>, rep: array2<int>, d: array2<int>, s: array2<int>, k: nat, j: nat) returns (x: int, from: int)
    requires p.Valid() && 2 <= k < d.Length0 && k - 1 <= j < |p.v| && Costs(p, cost, rep, |p.v|) && Rows(p, d, s, k)
    ensures x == Best(p, k, j) && from == BestFrom(p, k, j, j)
  {
    from := k - 1;
    x := SplitAt(p, cost, rep, d, s, k, j, k - 1);
    FirstFrom(p, k, j, x);
    for q := k to j + 1
      invariant FromIs(p, k, j, q - 1, from, x)
    {
      var y := SplitAt(p, cost, rep, d, s, k, j, q);
      NextFrom(p, k, j, q, from, x, y);
      if y < x {
        x, from := y, q;
      }
    }
    LastFrom(p, k, j, from, x);
  }

  lemma FirstFrom(p: Points, k: nat, j: nat, x: int)
    requires |p.v| == |p.w| && 2 <= k && k - 1 <= j < |p.v| && ValueIs(p, k, j, k - 1, x)
    ensures FromIs(p, k, j, k - 1, k - 1, x)
  {
    assert BestFrom(p, k, j, k - 1) == k - 1;
  }

  lemma NextFrom(p: Points, k: nat, j: nat, q: nat, from: nat, x: int, y: int)
    requires |p.v| == |p.w| && 2 <= k <= q <= j < |p.v| && FromIs(p, k, j, q - 1, from, x) && ValueIs(p, k, j, q, y)
    ensures if y < x then FromIs(p, k, j, q, q, y) else FromIs(p, k, j, q, from, x)
  {
    assert Opens(true);
  }

  lemma LastFrom(p: Points, k: nat, j: nat, from: nat, x: int)
    requires |p.v| == |p.w| && 2 <= k && k - 1 <= j < |p.v| && FromIs(p, k, j, j, from, x)
    ensures x == Best(p, k, j) && from == BestFrom(p, k, j, j)
  {
    assert Opens(true);
  }

  method FillSplits(p: Points, k: nat, cost: array2<int>, rep: array2<int>) returns (d: array2<int>, s: array2<int>)
    requires p.Valid() && 1 <= k <= |p.v| && Costs(p, cost, rep, |p.v|)
    ensures fresh(d) && fresh(s) && d.Length0 == k + 1 && Rows(p, d, s, k + 1)
  {
    var m := |p.v|;
    d, s := new int[k + 1, m], new int[k + 1, m];
    for j := 0 to m
      invariant forall u :: 0 <= u < j ==> d[1, u] == Best(p, 1, u)
    {
      d[1, j] := cost[0, j];
    }
    for q := 2 to k + 1
      invariant Rows(p, d, s, q)
    {
      FillRow(p, cost, rep, d, s, q);
    }
  }

  /** The first cells of row q, up to column n. */
  ghost predicate RowTo(p: Points, d: array2<int>, s: array2<int>, q: int, n: int)
    requires p.Valid()
    reads d, s
  {
    && d.Length1 == s.Length1 == |p.v| && d.Length0 == s.Length0 && 2 <= q < d.Length0
    && forall j :: q - 1 <= j < n && j < |p.v| ==> d[q, j] == Best(p, q, j) && s[q, j] == BestFrom(p, q, j, j)
  }

  /** One row of D and P. */
  method FillRow(p: Points, cost: array2<int>, rep: array2<int>, d: array2<int>, s: array2<int>, q: nat)
    requires p.Valid() && 2 <= q < d.Length0 && q <= |p.v| && Costs(p, cost, rep, |p.v|) && Rows(p, d, s, q)
    requires d != cost && d != rep && s != cost && s != rep && d != s
    modifies d, s
    ensures Rows(p, d, s, q + 1)
  {
    for j := q - 1 to |p.v|
      invariant Rows(p, d, s, q) && RowTo(p, d, s, q, j)
    {
      FillCell(p, cost, rep, d, s, q, j);
    }
  }

  method FillCell(p: Points, cost: array2<int>, rep: array2<int>, d: array2<int>, s: array2<int>, q: nat, j: nat)
    requires p.Valid() && 2 <= q < d.Length0 && q - 1 <= j < |p.v| && Costs(p, cost, rep, |p.v|) && Rows(p, d, s, q) && RowTo(p, d, s, q, j)
    requires d != cost && d != rep && s != cost && s != rep && d != s
    modifies d, s
    ensures Rows(p, d, s, q) && RowTo(p, d, s, q, j + 1)
  {
    var x, from := BestSplit(p, cost, rep, d, s, q, j);
    d[q, j], s[q, j] := x, from;
  }

  /** r is a best set of k points and e its error: the minimum over all k-element subsets of the points. */
  ghost predicate Optimal(p: Points, r: seq<int>, k: nat, e: int)
    requires p.Valid() && k > 0
  {
    && Levels(p, r) && |r| == k && e == Error(p, r, |p.v|)
    && forall q: seq<int> :: Levels(p, q) && |q| == k ==> e <= Error(p, q, |p.v|)
  }

  lemma BackIsOptimal(p: Points, k: nat, r: seq<int>, e: int)
    requires p.Valid() && 1 <= k <= |p.v| && Attains(p, r, k, |p.v| - 1) && e == Best(p, k, |p.v| - 1)
    ensures Optimal(p, r, k, e)
  {
    forall q: seq<int> | Levels(p, q) && |q| == k
      ensures e <= Error(p, q, |p.v|)
    {
      LowerBound(p, q, k, |p.v| - 1);
    }
  }

  /** The values of levels. */
  function Values(p: Points, r: seq<int>): (x: seq<int>)
    requires forall a :: 0 <= a < |r| ==> 0 <= r[a] < |p.v|
    ensures |x| == |r|
  {
    seq(|r|, a requires 0 <= a < |r| => p.v[r[a]])
  }

  /** levels are, in ascending order, a best choice of min(kmax, |p.v|) of the points, and error is its error. */
  ghost predicate BestLevels(p: Points, kmax: nat, levels: seq<int>, error: int) {
    && p.Valid() && |p.v| > 0 && kmax > 0
    && exists r: seq<int> :: Optimal(p, r, if kmax < |p.v| then kmax else |p.v|, error) && levels == Values(p, r)
  }

  /** choose_levels for a non-empty list of points: the levels, ascending, and the error. */
  method ChooseLevels(p: Points, kmax: nat) returns (levels: seq<int>, error: int)
    requires p.Valid() && |p.v| > 0 && kmax > 0
    ensures BestLevels(p, kmax, levels, error)
  {
    var m := |p.v|;
    var k := if kmax < m then kmax else m;
    var cost, rep := FillCosts(p);
    var d, s := FillSplits(p, k, cost, rep);
    error := d[k, m - 1];
    levels := Backtrack(p, cost, rep, d, s, k);
    BackIsBest(p, kmax, k, levels, error);
  }

  /** The backtracked levels and the value of the last cell are a best choice. */
  lemma BackIsBest(p: Points, kmax: nat, k: nat, levels: seq<int>, error: int)
    requires p.Valid() && |p.v| > 0 && kmax > 0 && k == (if kmax < |p.v| then kmax else |p.v|)
    requires levels == Values(p, Back(p, k, |p.v| - 1)) && error == Best(p, k, |p.v| - 1)
    ensures BestLevels(p, kmax, levels, error)
  {
    var r := Back(p, k, |p.v| - 1);
    BackError(p, k, |p.v| - 1);
    BackIsOptimal(p, k, r, error);
    assert Optimal(p, r, k, error) && levels == Values(p, r);
  }

  /** The clusters are visited from the right, so prepending keeps the list ascending, which is what the final sort does. */
  method Backtrack(p: Points, cost: array2<int>, rep: array2<int>, d: array2<int>, s: array2<int>, top: nat) returns (levels: seq<int>)
    requires p.Valid() && 1 <= top < d.Length0 && top <= |p.v| && Costs(p, cost, rep, |p.v|) && Rows(p, d, s, top + 1)
    ensures levels == Values(p, Back(p, top, |p.v| - 1))
  {
    levels := [];
    var j: int, k: int := |p.v| - 1, top;
    ghost var tail: seq<int> := [];
    ghost var all := Back(p, top, |p.v| - 1);
    RestStart(p, top);
    while k >= 1
      invariant 0 <= k <= top && (k >= 1 ==> k - 1 <= j < |p.v|) && RestIs(p, k, j, all, tail)
      invariant (forall a :: 0 <= a < |tail| ==> 0 <= tail[a] < |p.v|) && levels == Values(p, tail)
    {
      var i: int, x: int := LastCluster(p, cost, rep, d, s, k, j);
      RestStep(p, k, j, i, x, all, tail);
      ValuesCons(p, x, tail);
      levels := [p.v[x]] + levels;
      tail := [x] + tail;
      j, k := i - 1, k - 1;
    }
    RestEnd(p, k, j, all, tail);
  }

  lemma RestStart(p: Points, top: nat)
    requires |p.v| == |p.w| && 1 <= top <= |p.v|
    ensures RestIs(p, top, |p.v| - 1, Back(p, top, |p.v| - 1), [])
  {
    assert Back(p, top, |p.v| - 1) == Rest(p, top, |p.v| - 1) + [];
  }

  lemma RestEnd(p: Points, k: int, j: int, all: seq<int>, tail: seq<int>)
    requires |p.v| == |p.w| && k < 1 && RestIs(p, k, j, all, tail)
    ensures all == tail
  {
    assert Opens(true);
  }

  /** Start and representative of the last cluster of cell (k, j), from the tables. */
  method LastCluster(p: Points, cost: array2<int>, rep: array2<int>, d: array2<int>, s: array2<int>, k: nat, j: nat) returns (i: nat, x: nat)
    requires p.Valid() && 1 <= k < d.Length0 && k - 1 <= j < |p.v| && Costs(p, cost, rep, |p.v|) && Rows(p, d, s, k + 1)
    ensures i <= j && i == (if k > 1 then BestFrom(p, k, j, j) else 0) && x == Rep(p, i, j)
  {
    i := if k > 1 then s[k, j] else 0;
    x := rep[i, j];
  }

  /** What is still to be collected. */
  ghost function Rest(p: Points, k: int, j: int): seq<int>
    requires |p.v| == |p.w| && (k >= 1 ==> k - 1 <= j < |p.v|)
  {
    if k >= 1 then Back(p, k, j) else []
  }

  ghost predicate RestIs(p: Points, k: int, j: int, all: seq<int>, tail: seq<int>)
    requires |p.v| == |p.w| && (k >= 1 ==> k - 1 <= j < |p.v|)
  {
    forall o {:trigger Opens(o)} :: o ==> all == Rest(p, k, j) + tail
  }

  lemma RestStep(p: Points, k: nat, j: nat, i: nat, x: int, all: seq<int>, tail: seq<int>)
    requires |p.v| == |p.w| && 1 <= k && k - 1 <= j < |p.v| && RestIs(p, k, j, all, tail)
    requires i == (if k > 1 then BestFrom(p, k, j, j) else 0) && x == Rep(p, i, j)
    ensures (k > 1 ==> k - 2 <= i - 1 < |p.v|) && RestIs(p, k - 1, i - 1, all, [x] + tail)
  {
    assert Opens(true);
    if k > 1 {
      var from, r := BackStep(p, k, j);
      assert Back(p, k, j) + tail == Back(p, k - 1, i - 1) + ([x] + tail);
    } else {
      assert Back(p, 1, j) + tail == [] + ([x] + tail);
    }
  }

  lemma ValuesCons(p: Points, x: int, tail: seq<int>)
    requires 0 <= x < |p.v| && forall a :: 0 <= a < |tail| ==> 0 <= tail[a] < |p.v|
    ensures forall a :: 0 <= a < |[x] + tail| ==> 0 <= ([x] + tail)[a] < |p.v|
    ensures Values(p, [x] + tail) == [p.v[x]] + Values(p, tail)
  {
  }
}
