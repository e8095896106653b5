/** The choice among the occurring values against a choice among all fifteen representable ones, as the documentation of
    choose_levels puts it: exactly when they agree, for any number of levels, and inputs for which they do not. */
module CodebookOffGrid {
  import opened CodebookDp
  import opened CodebookRemap

  /** The sum of h[c] * f[c] over all codes. */
  function Total(h: Hist, f: seq<nat>): nat
    requires |f| == 16
  {
    HistSum(h, f, |f|)
  }

  /** The histogram error of a code map built from some levels. */
  function LevelError(h: Hist, lv: seq<int>): nat
    requires AreLevels(lv)
  {
    Total(h, Shifts(CodeMap(lv)))
  }

  /** The quantiser's error for its levels. */
  lemma LevelErrorIs(h: Hist, p: Points, r: seq<int>, lv: seq<int>)
    requires p == PointsOf(h) && |r| > 0 && (forall i :: 0 <= i < |r| ==> 0 <= r[i] < |p.v|) && lv == Values(p, r)
    ensures AreLevels(lv) && LevelError(h, lv) == Error(p, r, |p.v|)
  {
    MapErrorIsLevelError(h, p, r, lv);
  }

  // ------------------------------------------------------------------ one cluster

  /** Total weight, first and second moment of the first n codes. */
  function Mass(h: Hist, n: nat): nat
    requires n <= 16
  {
    if n == 0 then 0 else Mass(h, n - 1) + h[n - 1]
  }

  function First(h: Hist, n: nat): int
    requires n <= 16
  {
    if n == 0 then 0 else First(h, n - 1) + h[n - 1] * Val(n - 1)
  }

  function Second(h: Hist, n: nat): int
    requires n <= 16
  {
    if n == 0 then 0 else Second(h, n - 1) + h[n - 1] * Sq(Val(n - 1))
  }

  lemma MomentStep(w: int, v: int, x: int, mass: int, first: int, second: int)
    ensures second - 2 * x * first + Sq(x) * mass + w * Sq(v - x)
         == (second + w * Sq(v)) - 2 * x * (first + w * v) + Sq(x) * (mass + w)
  {
    assert Sq(v - x) == Sq(v) - 2 * (v * x) + Sq(x);
    assert w * Sq(v - x) == w * Sq(v) - 2 * (w * (v * x)) + w * Sq(x);
    assert w * (v * x) == x * (w * v);
  }

  /** The error of a single level as a quadratic in it. */
  lemma {:induction false} OneLevelMoments(h: Hist, f: seq<nat>, x: int, n: nat)
    requires n <= 16 && |f| == 16 && forall c: nat :: c < 16 ==> f[c] == Sq(Val(c) - x)
    ensures HistSum(h, f, n) == Second(h, n) - 2 * x * First(h, n) + Sq(x) * Mass(h, n)
  {
    if n > 0 {
      OneLevelMoments(h, f, x, n - 1);
      MomentStep(h[n - 1], Val(n - 1), x, Mass(h, n - 1), First(h, n - 1), Second(h, n - 1));
    }
  }

  /** Squared distances of the codes to one value. */
  function To(x: int): (f: seq<nat>)
    ensures |f| == 16 && forall c: nat :: c < 16 ==> f[c] == Sq(Val(c) - x)
  {
    seq(16, c requires 0 <= c < 16 => Sq(Val(c) - x))
  }

  /** The error when every code goes to x. */
  function OneError(h: Hist, x: int): nat { Total(h, To(x)) }

  lemma OneErrorIs(h: Hist, x: int)
    ensures OneError(h, x) == Second(h, |h|) - 2 * x * First(h, |h|) + Sq(x) * Mass(h, |h|)
  {
    OneLevelMoments(h, To(x), x, |h|);
  }

  /** Completing the square. */
  lemma Completed(mass: int, first: int, second: int, x: int)
    ensures mass * (second - 2 * x * first + Sq(x) * mass) == Sq(mass * x - first) + (mass * second - Sq(first))
  {
    assert Sq(mass * x - first) == Sq(mass * x) - 2 * (mass * x * first) + Sq(first);
    assert mass * (2 * x * first) == 2 * (mass * x * first);
    assert mass * (Sq(x) * mass) == Sq(mass * x);
  }

  /** Distance of a level from the weighted mean, scaled by the total weight. */
  function FromMean(h: Hist, x: int): nat { Abs(Mass(h, |h|) * x - First(h, |h|)) }

  /** A single level is at least as good as another exactly when it is at least as near to the mean. */
  lemma NearerIsBetter(h: Hist, x: int, y: int)
    requires Mass(h, |h|) > 0
    ensures OneError(h, x) <= OneError(h, y) <==> FromMean(h, x) <= FromMean(h, y)
  {
    OneErrorIs(h, x);
    OneErrorIs(h, y);
    var m, a, b := Mass(h, |h|), Mass(h, |h|) * x - First(h, |h|), Mass(h, |h|) * y - First(h, |h|);
    Completed(m, First(h, |h|), Second(h, |h|), x);
    Completed(m, First(h, |h|), Second(h, |h|), y);
    Scaled(m, OneError(h, x), OneError(h, y));
    AbsSq(a, b);
  }

  lemma Scaled(m: int, a: int, b: int)
    requires m > 0
    ensures a <= b <==> m * a <= m * b
  {
    assert m * (b - a) == m * b - m * a;
    assert b - a >= 0 ==> m * (b - a) >= 0;
    assert b - a < 0 ==> m * (b - a) < 0;
  }

  lemma {:induction false} NoMass(h: Hist, f: seq<nat>, n: nat)
    requires n <= 16 && |f| == 16 && Mass(h, n) == 0
    ensures HistSum(h, f, n) == 0
  {
    if n > 0 {
      NoMass(h, f, n - 1);
      assert Times(0, f[n - 1]) == 0;
    }
  }

  /** A value as near to the mean is as good, whether the cluster has weight or not. */
  lemma NearIsGood(h: Hist, x: int, y: int)
    requires FromMean(h, x) <= FromMean(h, y)
    ensures OneError(h, x) <= OneError(h, y)
  {
    if Mass(h, |h|) > 0 {
      NearerIsBetter(h, x, y);
    } else {
      NoMass(h, To(x), |h|);
    }
  }

  // ------------------------------------------------------------------ nearest-level clusters

  /** The codes whose nearest level is level a: its cluster. */
  function Part(h: Hist, lv: seq<int>, a: nat): Hist
    requires |lv| > 0
  {
    seq(16, c requires 0 <= c < 16 => if ArgNear(lv, Val(c), |lv|) == a then h[c] else 0)
  }

  /** The codes of the first n clusters. */
  function Parts(h: Hist, lv: seq<int>, n: nat): Hist
    requires |lv| > 0
  {
    seq(16, c requires 0 <= c < 16 => if ArgNear(lv, Val(c), |lv|) < n then h[c] else 0)
  }

  /** Distances when the cluster of level a goes to y[a]. */
  function Moved(lv: seq<int>, y: seq<int>): (f: seq<nat>)
    requires |y| == |lv| > 0
    ensures |f| == 16
  {
    seq(16, c requires 0 <= c < 16 => Sq(Val(c) - y[ArgNear(lv, Val(c), |lv|)]))
  }

  /** The clusters' errors, each at its own value. */
  function PartSum(h: Hist, lv: seq<int>, y: seq<int>, n: nat): nat
    requires |y| == |lv| > 0 && n <= |lv|
  {
    if n == 0 then 0 else PartSum(h, lv, y, n - 1) + OneError(Part(h, lv, n - 1), y[n - 1])
  }

  lemma {:induction false} SumsAdd(a: Hist, b: Hist, both: Hist, f: seq<nat>, n: nat)
    requires |f| == 16 && n <= 16 && forall c :: 0 <= c < 16 ==> both[c] == a[c] + b[c]
    ensures HistSum(both, f, n) == HistSum(a, f, n) + HistSum(b, f, n)
  {
    if n > 0 {
      SumsAdd(a, b, both, f, n - 1);
      TimesAdd(a[n - 1], b[n - 1], f[n - 1]);
    }
  }

  lemma {:induction false} SameWhereWeighted(h: Hist, f: seq<nat>, d: seq<nat>, n: nat)
    requires |f| == |d| == 16 && n <= 16 && forall c :: 0 <= c < 16 && h[c] > 0 ==> f[c] == d[c]
    ensures HistSum(h, f, n) == HistSum(h, d, n)
  {
    if n > 0 {
      SameWhereWeighted(h, f, d, n - 1);
      assert h[n - 1] == 0 ==> Times(h[n - 1], f[n - 1]) == Times(h[n - 1], d[n - 1]) == 0;
    }
  }

  lemma {:induction false} ClustersAdd(h: Hist, lv: seq<int>, y: seq<int>, n: nat)
    requires |y| == |lv| > 0 && n <= |lv|
    ensures Total(Parts(h, lv, n), Moved(lv, y)) == PartSum(h, lv, y, n)
  {
    if n == 0 {
      assert Parts(h, lv, 0) == seq(16, i => 0);
      ZeroSum(Moved(lv, y), |Moved(lv, y)|);
    } else {
      ClustersAdd(h, lv, y, n - 1);
      SumsAdd(Parts(h, lv, n - 1), Part(h, lv, n - 1), Parts(h, lv, n), Moved(lv, y), |Moved(lv, y)|);
      SameWhereWeighted(Part(h, lv, n - 1), Moved(lv, y), To(y[n - 1]), |Moved(lv, y)|);
    }
  }

  /** Sending each cluster to a value of its own costs the sum of the clusters' errors. */
  lemma ClusterErrors(h: Hist, lv: seq<int>, y: seq<int>)
    requires |y| == |lv| > 0
    ensures Total(h, Moved(lv, y)) == PartSum(h, lv, y, |lv|)
  {
    ClustersAdd(h, lv, y, |lv|);
    assert Parts(h, lv, |lv|) == h;
  }

  lemma MovedAt(lv: seq<int>, y: seq<int>, c: nat, x: int)
    requires |y| == |lv| > 0 && c < 16 && x == Val(c)
    ensures Moved(lv, y)[c] == Sq(x - y[ArgNear(lv, x, |lv|)])
  {
  }

  lemma ShiftIsMoved(lv: seq<int>, c: nat)
    requires AreLevels(lv) && c < 16
    ensures Shifts(CodeMap(lv))[c] == Moved(lv, lv)[c]
  {
    MappedValue(lv, c, Val(c));
    MovedAt(lv, lv, c, Val(c));
  }

  lemma ShiftsAreMoved(lv: seq<int>, f: seq<nat>, d: seq<nat>)
    requires AreLevels(lv) && f == Shifts(CodeMap(lv)) && d == Moved(lv, lv)
    ensures f == d
  {
    forall c | 0 <= c < 16
      ensures f[c] == d[c]
    {
      ShiftIsMoved(lv, c);
    }
  }

  lemma OwnLevels(h: Hist, lv: seq<int>)
    requires AreLevels(lv)
    ensures LevelError(h, lv) == PartSum(h, lv, lv, |lv|)
  {
    ClusterErrors(h, lv, lv);
    ShiftsAreMoved(lv, Shifts(CodeMap(lv)), Moved(lv, lv));
  }

  lemma {:induction false} PartsImprove(h: Hist, lv: seq<int>, y: seq<int>, n: nat)
    requires |y| == |lv| > 0 && n <= |lv| && forall a: nat :: a < |lv| ==> FromMean(Part(h, lv, a), y[a]) <= FromMean(Part(h, lv, a), lv[a])
    ensures PartSum(h, lv, y, n) <= PartSum(h, lv, lv, n)
  {
    if n > 0 {
      PartsImprove(h, lv, y, n - 1);
      NearIsGood(Part(h, lv, n - 1), y[n - 1], lv[n - 1]);
    }
  }

  lemma {:induction false} SumMono(h: Hist, f: seq<nat>, d: seq<nat>, n: nat)
    requires |f| == |d| == 16 && n <= 16 && forall c :: 0 <= c < 16 ==> f[c] <= d[c]
    ensures HistSum(h, f, n) <= HistSum(h, d, n)
  {
    if n > 0 {
      SumMono(h, f, d, n - 1);
      TimesMono(h[n - 1], f[n - 1], d[n - 1]);
    }
  }

  lemma ContainedAt(lv: seq<int>, y: seq<int>, lv2: seq<int>, c: nat, x: int)
    requires |y| == |lv| > 0 && AreLevels(lv2) && c < 16 && x == Val(c) && y[ArgNear(lv, x, |lv|)] in lv2
    ensures Shifts(CodeMap(lv2))[c] <= Moved(lv, y)[c]
  {
    MappedValue(lv2, c, x);
    MovedAt(lv, y, c, x);
    NearestOf(lv2, x, y[ArgNear(lv, x, |lv|)]);
  }

  /** Levels that contain every y[a] do no worse than sending each cluster to its y[a]. */
  lemma ContainedImprove(h: Hist, lv: seq<int>, y: seq<int>, lv2: seq<int>)
    requires |y| == |lv| > 0 && AreLevels(lv2) && forall a :: 0 <= a < |y| ==> y[a] in lv2
    ensures LevelError(h, lv2) <= Total(h, Moved(lv, y))
  {
    var f, d := Shifts(CodeMap(lv2)), Moved(lv, y);
    forall c | 0 <= c < 16
      ensures f[c] <= d[c]
    {
      ContainedAt(lv, y, lv2, c, Val(c));
    }
    SumMono(h, f, d, |f|);
  }

  lemma NearestOf(lv: seq<int>, x: int, v: int)
    requires v in lv
    ensures Sq(x - lv[ArgNear(lv, x, |lv|)]) <= Sq(x - v)
  {
    var u :| 0 <= u < |lv| && lv[u] == v;
    ArgNearIsNearest(lv, x, |lv|, u);
    NoFarther(x, lv[ArgNear(lv, x, |lv|)], v);
  }

  lemma NoFarther(x: int, a: int, b: int)
    requires Abs(a - x) <= Abs(b - x)
    ensures Sq(x - a) <= Sq(x - b)
  {
    AbsSq(a - x, b - x);
    SqFlip(a - x);
    SqFlip(b - x);
  }

  // ------------------------------------------------------------------ k places that contain some

  /** The members of t below n, ascending. */
  ghost function Ascending(t: set<int>, n: nat): (r: seq<int>)
    ensures forall a :: 0 <= a < |r| ==> 0 <= r[a] < n && r[a] in t
  {
    if n == 0 then [] else Ascending(t, n - 1) + if n - 1 in t then [n - 1] else []
  }

  lemma {:induction false} AscendingHas(t: set<int>, n: nat, x: int)
    requires 0 <= x < n && x in t
    ensures x in Ascending(t, n)
  {
    if x < n - 1 {
      AscendingHas(t, n - 1, x);
    }
  }

  lemma {:induction false} AscendingAscends(t: set<int>, n: nat, a: nat, b: nat)
    requires a < b < |Ascending(t, n)|
    ensures Ascending(t, n)[a] < Ascending(t, n)[b]
  {
    if n > 0 && b < |Ascending(t, n - 1)| {
      AscendingAscends(t, n - 1, a, b);
    }
  }

  lemma {:induction false} AscendingCounts(t: set<int>, n: nat)
    requires forall x :: x in t ==> 0 <= x < n
    ensures |Ascending(t, n)| == |t|
  {
    if n == 0 {
      NoMembers(t, n);
    } else {
      var u := t - {n - 1};
      AscendingCounts(u, n - 1);
      AscendingSame(t, u, n - 1);
      assert t == if n - 1 in t then u + {n - 1} else u;
    }
  }

  lemma NoMembers(t: set<int>, n: nat)
    requires n == 0 && forall x :: x in t ==> 0 <= x < n
    ensures |Ascending(t, n)| == 0 == |t|
  {
    assert forall x :: x !in t;
    assert |t| == 0;
  }

  lemma {:induction false} AscendingSame(t: set<int>, u: set<int>, n: nat)
    requires forall x :: 0 <= x < n ==> (x in t <==> x in u)
    ensures Ascending(t, n) == Ascending(u, n)
  {
    if n > 0 {
      AscendingSame(t, u, n - 1);
    }
  }

  lemma {:induction false} AllCounted(t: set<int>, n: nat)
    requires forall x :: 0 <= x < n ==> x in t
    ensures |Ascending(t, n)| == n
  {
    if n > 0 {
      AllCounted(t, n - 1);
    }
  }

  lemma {:induction false} AtMostAsMany(s: seq<int>)
    ensures |set x | x in s| <= |s|
  {
    if s != [] {
      var rest := s[..|s| - 1];
      AtMostAsMany(rest);
      assert (set x | x in s) == (set x | x in rest) + {s[|s| - 1]};
    }
  }

  /** At most k places among the first m, repetitions allowed, are among some k of them. */
  lemma Enlarge(s: seq<int>, m: nat, k: nat) returns (r: seq<int>)
    requires |s| <= k <= m && forall a :: 0 <= a < |s| ==> 0 <= s[a] < m
    ensures |r| == k && (forall x :: x in s ==> x in r) && (forall x :: x in r ==> 0 <= x < m)
    ensures forall a, b :: 0 <= a < b < k ==> r[a] < r[b]
  {
    var t := set x | x in s;
    AtMostAsMany(s);
    while |t| < k
      invariant |t| <= k && (forall x :: x in s ==> x in t) && forall x :: x in t ==> 0 <= x < m
      decreases k - |t|
    {
      AscendingCounts(t, m);
      if forall x :: 0 <= x < m ==> x in t {
        AllCounted(t, m);
        assert false;
      }
      var x :| 0 <= x < m && x !in t;
      t := t + {x};
    }
    AscendingCounts(t, m);
    r := Ascending(t, m);
    forall x | x in s
      ensures x in r
    {
      AscendingHas(t, m, x);
    }
    forall a, b | 0 <= a < b < k
      ensures r[a] < r[b]
    {
      AscendingAscends(t, m, a, b);
    }
  }

  // ------------------------------------------------------------------ exactly when the choice is optimal on the grid

  /** No k-element set of representable values does better. */
  ghost predicate BestSubset(h: Hist, lv: seq<int>, k: nat) {
    Subset(lv, k) && forall other :: Subset(other, k) ==> LevelError(h, lv) <= LevelError(h, other)
  }

  ghost predicate Occurs(h: Hist, x: int) { exists g :: 0 <= g < 15 && GRID[g] == x && GridWeight(h, g) > 0 }

  /** Some occurring value is as near to the weighted mean of level a's cluster as the level itself. */
  ghost predicate ServedAt(h: Hist, lv: seq<int>, a: nat)
    requires a < |lv|
  {
    exists x :: Occurs(h, x) && FromMean(Part(h, lv, a), x) <= FromMean(Part(h, lv, a), lv[a])
  }

  /** ... of every level's cluster. */
  ghost predicate Served(h: Hist, lv: seq<int>) { forall a: nat :: a < |lv| ==> ServedAt(h, lv, a) }

  /** The grid index of a point. */
  lemma Occurring(h: Hist, p: Points, a: int) returns (g: nat, v: int)
    requires p == PointsOf(h) && 0 <= a < |p.v|
    ensures v == p.v[a] && g < 15 && GRID[g] == v && GridWeight(h, g) > 0 && v in GRID
  {
    PointsAscend(h, 15);
    v := p.v[a];
    g :| g < 15 && GRID[g] == v && GridWeight(h, g) > 0;
  }

  lemma PlaceOf(h: Hist, x: int) returns (i: nat)
    requires Occurs(h, x)
    ensures i < |PointsOf(h).v| && PointsOf(h).v[i] == x
  {
    var g :| 0 <= g < 15 && GRID[g] == x && GridWeight(h, g) > 0;
    i := PointsComplete(h, 15, g);
  }

  /** The points that serve the clusters. */
  lemma Servants(h: Hist, p: Points, lv: seq<int>) returns (s: seq<int>, y: seq<int>)
    requires p == PointsOf(h) && |lv| > 0 && Served(h, lv)
    ensures |s| == |y| == |lv| && forall a :: 0 <= a < |s| ==> 0 <= s[a] < |p.v| && y[a] == p.v[s[a]]
    ensures forall a: nat :: a < |lv| ==> FromMean(Part(h, lv, a), y[a]) <= FromMean(Part(h, lv, a), lv[a])
  {
    s, y := [], [];
    while |s| < |lv|
      invariant |s| == |y| <= |lv| && forall a :: 0 <= a < |s| ==> 0 <= s[a] < |p.v| && y[a] == p.v[s[a]]
      invariant forall a: nat :: a < |s| ==> FromMean(Part(h, lv, a), y[a]) <= FromMean(Part(h, lv, a), lv[a])
    {
      var a := |s|;
      assert ServedAt(h, lv, a);
      var x :| Occurs(h, x) && FromMean(Part(h, lv, a), x) <= FromMean(Part(h, lv, a), lv[a]);
      var i := PlaceOf(h, x);
      s, y := s + [i], y + [x];
    }
  }

  /** Levels that contain a servant for each cluster do no worse. */
  lemma ServantsMatch(h: Hist, lv: seq<int>, y: seq<int>, lv2: seq<int>)
    requires |y| == |lv| && AreLevels(lv) && AreLevels(lv2) && forall a :: 0 <= a < |y| ==> y[a] in lv2
    requires forall a: nat :: a < |lv| ==> FromMean(Part(h, lv, a), y[a]) <= FromMean(Part(h, lv, a), lv[a])
    ensures LevelError(h, lv2) <= LevelError(h, lv)
  {
    ContainedImprove(h, lv, y, lv2);
    ClusterErrors(h, lv, y);
    PartsImprove(h, lv, y, |lv|);
    OwnLevels(h, lv);
  }

  /** k points that contain a servant for each cluster. */
  lemma ServingPoints(h: Hist, p: Points, lv: seq<int>, k: nat) returns (q: seq<int>, y: seq<int>)
    requires p == PointsOf(h) && 0 < |lv| == k <= |p.v| && Served(h, lv)
    ensures Levels(p, q) && |q| == k && |y| == |lv| && forall a :: 0 <= a < |y| ==> y[a] in Values(p, q)
    ensures forall a: nat :: a < |lv| ==> FromMean(Part(h, lv, a), y[a]) <= FromMean(Part(h, lv, a), lv[a])
  {
    var s;
    s, y := Servants(h, p, lv);
    q := Enlarge(s, |p.v|, k);
    forall a | 0 <= a < |q|
      ensures 0 <= q[a] < |p.v|
    {
      assert q[a] in q;
    }
    forall a | 0 <= a < |y|
      ensures y[a] in Values(p, q)
    {
      assert s[a] in s;
      var u :| 0 <= u < |q| && q[u] == s[a];
      assert Values(p, q)[u] == y[a];
    }
  }

  /** Served levels can be replaced by occurring ones, at no cost. */
  lemma ServedIsMatched(h: Hist, p: Points, r: seq<int>, k: nat, e: int, lv: seq<int>)
    requires p == PointsOf(h) && p.Valid() && 0 < k <= |p.v| && Optimal(p, r, k, e) && Subset(lv, k) && Served(h, lv)
    ensures e <= LevelError(h, lv)
  {
    var q, y := ServingPoints(h, p, lv, k);
    LevelErrorIs(h, p, q, Values(p, q));
    ServantsMatch(h, lv, y, Values(p, q));
  }

  /** The chosen levels are a set of occurring values with the error returned. */
  lemma ChosenSubset(h: Hist, p: Points, r: seq<int>, k: nat, e: int) returns (lv: seq<int>)
    requires p == PointsOf(h) && p.Valid() && 0 < k && Optimal(p, r, k, e)
    ensures Subset(lv, k) && LevelError(h, lv) == e && Served(h, lv)
  {
    lv := Values(p, r);
    LevelErrorIs(h, p, r, lv);
    forall a: nat | a < |lv|
      ensures ServedAt(h, lv, a)
    {
      var g, v := Occurring(h, p, r[a]);
      assert Occurs(h, lv[a]);
    }
  }

  /** For any number of levels, the best choice among the occurring values is a best choice among all representable ones if
      and only if some best choice among the representable ones has, in each of its clusters, an occurring value as near to
      the weighted mean as the level. */
  lemma GridOptimalExactly(h: Hist, p: Points, r: seq<int>, k: nat, e: int)
    requires p == PointsOf(h) && p.Valid() && 0 < k <= |p.v| && Optimal(p, r, k, e)
    ensures (forall lv :: Subset(lv, k) ==> e <= LevelError(h, lv)) <==> exists lv :: BestSubset(h, lv, k) && Served(h, lv)
  {
    if forall lv :: Subset(lv, k) ==> e <= LevelError(h, lv) {
      var lv := ChosenSubset(h, p, r, k, e);
      assert BestSubset(h, lv, k) && Served(h, lv);
    }
    if best :| BestSubset(h, best, k) && Served(h, best) {
      ServedIsMatched(h, p, r, k, e, best);
    }
  }

  /** When every representable value occurs the choice is optimal among all of them. */
  lemma AllRepresentable(h: Hist, p: Points, r: seq<int>, k: nat, e: int, lv: seq<int>)
    requires p == PointsOf(h) && p.Valid() && 0 < k <= |p.v| && Optimal(p, r, k, e) && forall g :: 0 <= g < 15 ==> GridWeight(h, g) > 0
    requires Subset(lv, k)
    ensures e <= LevelError(h, lv)
  {
    forall a: nat | a < |lv|
      ensures ServedAt(h, lv, a)
    {
      var g :| 0 <= g < 15 && GRID[g] == lv[a];
      assert Occurs(h, lv[a]);
    }
    ServedIsMatched(h, p, r, k, e, lv);
  }

  lemma NearIsZero(p: Points, r: seq<int>, a: nat, x: int)
    requires |r| > 0 && (forall i :: 0 <= i < |r| ==> 0 <= r[i] < |p.v|) && a < |r| && x == p.v[r[a]]
    ensures Near(p, r, x) == 0
  {
    NearIsLeast(p, r, x, a);
    assert Sq(0) == 0;
  }

  lemma TimesZero(w: nat)
    ensures Times(w, 0) == 0
  {
  }

  lemma {:induction false} NoErrorWithAll(p: Points, r: seq<int>, n: nat)
    requires p.Valid() && Levels(p, r) && |r| == |p.v| > 0 && n <= |p.v|
    ensures Error(p, r, n) == 0
  {
    if n > 0 {
      NoErrorWithAll(p, r, n - 1);
      AllLevels(p, r, n - 1);
      NearIsZero(p, r, n - 1, p.v[n - 1]);
      TimesZero(p.w[n - 1]);
    }
  }

  /** So it is with enough levels for every occurring value: the error is zero. */
  lemma EnoughLevels(h: Hist, p: Points, r: seq<int>, k: nat, e: int)
    requires p == PointsOf(h) && p.Valid() && 0 < |p.v| && k == |p.v| && Optimal(p, r, k, e)
    ensures e == 0
  {
    NoErrorWithAll(p, r, |p.v|);
  }

  // ------------------------------------------------------------------ when it is not

  /** Distances are at least d apart. */
  predicate Apart(v: seq<int>, d: int) { forall i, j :: 0 <= i < j < |v| ==> v[j] - v[i] >= d }

  lemma {:induction false} NearIsFar(p: Points, r: seq<int>, i: nat, d: nat)
    requires p.Valid() && Apart(p.v, d) && Levels(p, r) && |r| > 0 && i < |p.v| && i !in r
    ensures Near(p, r, p.v[i]) >= d * d
  {
    var a := NearIsAttained(p, r, p.v[i]);
    assert r[a] in r;
    var gap := Abs(p.v[i] - p.v[r[a]]);
    AbsSquare(p.v[i] - p.v[r[a]]);
    if gap > d {
      SquareMono(d, gap);
    }
  }

  lemma {:induction false} ErrorAtLeast(p: Points, r: seq<int>, n: nat, i: nat)
    requires p.Valid() && Levels(p, r) && |r| > 0 && i < n <= |p.v|
    ensures Error(p, r, n) >= Times(p.w[i], Near(p, r, p.v[i]))
  {
    if i < n - 1 {
      ErrorAtLeast(p, r, n - 1, i);
    }
  }

  /** Fewer levels than points leave some point out. */
  lemma LeftOut(p: Points, r: seq<int>) returns (i: nat)
    requires Levels(p, r) && |r| < |p.v|
    ensures i < |p.v| && i !in r
  {
    var t := set x | x in r;
    AtMostAsMany(r);
    AscendingCounts(t, |p.v|);
    if forall x :: 0 <= x < |p.v| ==> x in t {
      AllCounted(t, |p.v|);
      assert false;
    }
    i :| 0 <= i < |p.v| && i !in t;
  }

  /** With points d apart, each of weight, any choice of fewer levels than points costs d * d. */
  lemma FewLevelsCost(p: Points, r: seq<int>, d: nat)
    requires p.Valid() && Apart(p.v, d) && (forall i :: 0 <= i < |p.w| ==> p.w[i] > 0) && Levels(p, r) && 0 < |r| < |p.v|
    ensures Error(p, r, |p.v|) >= d * d
  {
    var i := LeftOut(p, r);
    NearIsFar(p, r, i, d);
    ErrorAtLeast(p, r, |p.v|, i);
    TimesAtLeast(p.w[i], Near(p, r, p.v[i]));
  }

  lemma TimesAtLeast(w: nat, d: nat)
    requires w > 0
    ensures Times(w, d) >= d
  {
  }

  lemma {:induction false} PointsWeigh(h: Hist, n: nat)
    requires n <= 15
    ensures forall a :: 0 <= a < |PointsUpTo(h, n).w| ==> PointsUpTo(h, n).w[a] > 0
  {
    if n > 0 {
      PointsWeigh(h, n - 1);
    }
  }

  /** Occurring values d apart make points d apart. */
  lemma PointsApart(h: Hist, p: Points, d: nat)
    requires p == PointsOf(h) && p.Valid() && forall x, y :: Occurs(h, x) && Occurs(h, y) && x < y ==> y - x >= d
    ensures Apart(p.v, d)
  {
    forall i, j | 0 <= i < j < |p.v|
      ensures p.v[j] - p.v[i] >= d
    {
      var g, x := Occurring(h, p, i);
      var g', y := Occurring(h, p, j);
      assert Occurs(h, x) && Occurs(h, y);
    }
  }

  lemma {:induction false} DistinctPlaces(p: Points, s: seq<int>)
    requires forall a, b :: 0 <= a < b < |s| ==> s[a] != s[b]
    requires forall a :: 0 <= a < |s| ==> 0 <= s[a] < |p.v|
    ensures |s| <= |p.v|
  {
    var t := set x | x in s;
    DistinctCount(s);
    AscendingCounts(t, |p.v|);
    AscendingFits(t, |p.v|);
  }

  lemma {:induction false} DistinctCount(s: seq<int>)
    requires forall a, b :: 0 <= a < b < |s| ==> s[a] != s[b]
    ensures |set x | x in s| == |s|
  {
    if s != [] {
      var rest := s[..|s| - 1];
      DistinctCount(rest);
      assert s == rest + [s[|s| - 1]] && s[|s| - 1] !in rest;
      assert (set x | x in s) == (set x | x in rest) + {s[|s| - 1]};
    }
  }

  lemma {:induction false} AscendingFits(t: set<int>, n: nat)
    ensures |Ascending(t, n)| <= n
  {
    if n > 0 {
      AscendingFits(t, n - 1);
    }
  }

  /** As many points as distinct occurring values. */
  lemma OccurringCount(h: Hist, p: Points, x: seq<int>)
    requires p == PointsOf(h) && p.Valid() && (forall a, b :: 0 <= a < b < |x| ==> x[a] != x[b]) && forall a :: 0 <= a < |x| ==> Occurs(h, x[a])
    ensures |x| <= |p.v|
  {
    var s: seq<int> := [];
    while |s| < |x|
      invariant |s| <= |x| && forall a :: 0 <= a < |s| ==> 0 <= s[a] < |p.v| && p.v[s[a]] == x[a]
    {
      var i := PlaceOf(h, x[|s|]);
      s := s + [i];
    }
    DistinctPlaces(p, s);
  }

  /** More than k values occur, any two of them 2 apart (one unit: values are doubled). */
  ghost predicate Spread(h: Hist, k: nat) {
    forall o {:trigger Opens(o)} :: o ==>
      && (exists x: seq<int> :: |x| > k && (forall a, b :: 0 <= a < b < |x| ==> x[a] != x[b]) && forall a :: 0 <= a < |x| ==> Occurs(h, x[a]))
      && forall u, v :: Occurs(h, u) && Occurs(h, v) && u < v ==> v - u >= 2
  }

  lemma IsSpread(h: Hist, k: nat, x: seq<int>)
    requires |x| > k && (forall a, b :: 0 <= a < b < |x| ==> x[a] != x[b]) && forall a :: 0 <= a < |x| ==> Occurs(h, x[a])
    requires forall u, v :: Occurs(h, u) && Occurs(h, v) && u < v ==> v - u >= 2
    ensures Spread(h, k)
  {
  }

  /** Then any choice among them costs at least 4, and a level set of a smaller error is better. */
  lemma DroppedValueIsBetter(h: Hist, p: Points, r: seq<int>, k: nat, e: int, lv: seq<int>)
    requires p == PointsOf(h) && p.Valid() && k > 0 && Optimal(p, r, k, e) && Spread(h, k)
    requires Subset(lv, k) && LevelError(h, lv) < 4
    ensures LevelError(h, lv) < e && !exists best :: BestSubset(h, best, k) && Served(h, best)
  {
    assert Opens(true);
    var x: seq<int> :| |x| > k && (forall a, b :: 0 <= a < b < |x| ==> x[a] != x[b]) && forall a :: 0 <= a < |x| ==> Occurs(h, x[a]);
    OccurringCount(h, p, x);
    PointsApart(h, p, 2);
    PointsWeigh(h, 15);
    FewLevelsCost(p, r, 2);
    GridOptimalExactly(h, p, r, k, e);
  }

  /** Weight one at some of the codes 2 (1.0), 4 (2.0), 7 (6.0), 14 (-4.0) and 15 (-6.0). */
  const TWO_VALUES: Hist := [0, 0, 1, 0, 1, 0, 0, 0, 0, 0, 0, 0, 0, 0, 0, 0]
  const THREE_VALUES: Hist := [0, 0, 1, 0, 1, 0, 0, 0, 0, 0, 0, 0, 0, 0, 0, 1]
  const FIVE_VALUES: Hist := [0, 0, 1, 0, 1, 0, 0, 1, 0, 0, 0, 0, 0, 0, 1, 1]

  lemma UnitSum(h: Hist, f: seq<nat>)
    requires |f| == 16
    ensures h == TWO_VALUES ==> Total(h, f) == f[2] + f[4]
    ensures h == THREE_VALUES ==> Total(h, f) == f[2] + f[4] + f[15]
    ensures h == FIVE_VALUES ==> Total(h, f) == f[2] + f[4] + f[7] + f[14] + f[15]
  {
    HistTerms(h, f);
    assert forall d: nat :: Times(0, d) == 0 && Times(1, d) == d;
  }

  /** The shift of a code whose nearest level is y, no other being as near. */
  lemma NearestTo(lv: seq<int>, c: nat, x: int, y: int)
    requires AreLevels(lv) && c < 16 && x == Val(c) && y in lv && forall a :: 0 <= a < |lv| && lv[a] != y ==> Abs(lv[a] - x) > Abs(y - x)
    ensures Shifts(CodeMap(lv))[c] == Sq(x - y)
  {
    MappedValue(lv, c, x);
    var u :| 0 <= u < |lv| && lv[u] == y;
    ArgNearIsNearest(lv, x, |lv|, u);
  }

  lemma TwoOccur(h: Hist, x: int)
    requires h == TWO_VALUES
    ensures Occurs(h, x) <==> x == 2 || x == 4
  {
    if Occurs(h, x) {
      var g :| 0 <= g < 15 && GRID[g] == x && GridWeight(h, g) > 0;
      assert g == 9 || g == 11;
    }
    assert GRID[9] == 2 && GridWeight(h, 9) > 0 && GRID[11] == 4 && GridWeight(h, 11) > 0;
  }

  lemma TwoSpread(h: Hist, k: nat, x: seq<int>)
    requires h == TWO_VALUES && k == 1 && x == [2, 4]
    ensures Spread(h, k)
  {
    forall v
      ensures Occurs(h, v) <==> v in x
    {
      TwoOccur(h, v);
    }
    IsSpread(h, k, x);
  }

  lemma TwoError(h: Hist, lv: seq<int>)
    requires h == TWO_VALUES && lv == [3]
    ensures Subset(lv, 1) && LevelError(h, lv) == 2
  {
    var f := Shifts(CodeMap(lv));
    UnitSum(h, f);
    NearestTo(lv, 2, 2, 3); NearestTo(lv, 4, 4, 3);
  }

  /** One level, with 1.0 and 2.0 occurring: 1.5 would do better than either. */
  lemma OneLevelMisses(h: Hist, p: Points, r: seq<int>, k: nat, e: int, lv: seq<int>)
    requires h == TWO_VALUES && k == 1 && p == PointsOf(h) && p.Valid() && Optimal(p, r, k, e) && lv == [3]
    ensures Subset(lv, k) && LevelError(h, lv) == 2 < e
  {
    TwoError(h, lv);
    TwoSpread(h, k, [2, 4]);
    DroppedValueIsBetter(h, p, r, k, e, lv);
  }

  lemma ThreeOccur(h: Hist, x: int)
    requires h == THREE_VALUES
    ensures Occurs(h, x) <==> x == -12 || x == 2 || x == 4
  {
    if Occurs(h, x) {
      var g :| 0 <= g < 15 && GRID[g] == x && GridWeight(h, g) > 0;
      assert g == 0 || g == 9 || g == 11;
    }
    assert GRID[0] == -12 && GridWeight(h, 0) > 0 && GRID[9] == 2 && GridWeight(h, 9) > 0 && GRID[11] == 4 && GridWeight(h, 11) > 0;
  }

  lemma ThreeSpread(h: Hist, k: nat, x: seq<int>)
    requires h == THREE_VALUES && k == 2 && x == [-12, 2, 4]
    ensures Spread(h, k)
  {
    forall v
      ensures Occurs(h, v) <==> v in x
    {
      ThreeOccur(h, v);
    }
    IsSpread(h, k, x);
  }

  lemma ThreeShift(lv: seq<int>, c: nat)
    requires lv == [-12, 3] && c in [2, 4, 15]
    ensures AreLevels(lv) && Shifts(CodeMap(lv))[c] == if c == 2 || c == 4 then 1 else 0
  {
    if c == 2 {
      NearestTo(lv, 2, 2, 3);
    }
    if c == 4 {
      NearestTo(lv, 4, 4, 3);
    }
    if c == 15 {
      NearestTo(lv, 15, -12, -12);
    }
  }

  lemma ThreeError(h: Hist, lv: seq<int>)
    requires h == THREE_VALUES && lv == [-12, 3]
    ensures Subset(lv, 2) && LevelError(h, lv) == 2
  {
    forall c | c in [2, 4, 15]
      ensures AreLevels(lv) && Shifts(CodeMap(lv))[c] == if c == 2 || c == 4 then 1 else 0
    {
      ThreeShift(lv, c);
    }
    UnitSum(h, Shifts(CodeMap(lv)));
  }

  /** Two levels, with 1.0, 2.0 and -6.0 occurring: -6.0 and 1.5 would do better. */
  lemma TwoLevelsMiss(h: Hist, p: Points, r: seq<int>, k: nat, e: int, lv: seq<int>)
    requires h == THREE_VALUES && k == 2 && p == PointsOf(h) && p.Valid() && Optimal(p, r, k, e) && lv == [-12, 3]
    ensures Subset(lv, k) && LevelError(h, lv) == 2 < e
  {
    ThreeError(h, lv);
    ThreeSpread(h, k, [-12, 2, 4]);
    DroppedValueIsBetter(h, p, r, k, e, lv);
  }

  lemma FiveOccur(h: Hist, x: int)
    requires h == FIVE_VALUES
    ensures Occurs(h, x) <==> x == -12 || x == -8 || x == 2 || x == 4 || x == 12
  {
    if Occurs(h, x) {
      var g :| 0 <= g < 15 && GRID[g] == x && GridWeight(h, g) > 0;
      assert g == 0 || g == 1 || g == 9 || g == 11 || g == 14;
    }
    assert GRID[0] == -12 && GridWeight(h, 0) > 0 && GRID[1] == -8 && GridWeight(h, 1) > 0;
    assert GRID[9] == 2 && GridWeight(h, 9) > 0 && GRID[11] == 4 && GridWeight(h, 11) > 0 && GRID[14] == 12 && GridWeight(h, 14) > 0;
  }

  lemma FiveSpread(h: Hist, k: nat, x: seq<int>)
    requires h == FIVE_VALUES && k == 4 && x == [-12, -8, 2, 4, 12]
    ensures Spread(h, k)
  {
    forall v
      ensures Occurs(h, v) <==> v in x
    {
      FiveOccur(h, v);
    }
    IsSpread(h, k, x);
  }

  lemma FiveShift(lv: seq<int>, c: nat)
    requires lv == [-12, -8, 3, 12] && c in [2, 4, 7, 14, 15]
    ensures AreLevels(lv) && Shifts(CodeMap(lv))[c] == if c == 2 || c == 4 then 1 else 0
  {
    if c == 2 {
      NearestTo(lv, 2, 2, 3);
    }
    if c == 4 {
      NearestTo(lv, 4, 4, 3);
    }
    if c == 7 {
      NearestTo(lv, 7, 12, 12);
    }
    if c == 14 {
      NearestTo(lv, 14, -8, -8);
    }
    if c == 15 {
      NearestTo(lv, 15, -12, -12);
    }
  }

  lemma FiveSubset(lv: seq<int>, k: nat)
    requires lv == [-12, -8, 3, 12] && k == 4
    ensures Subset(lv, k)
  {
  }

  lemma FiveTotal(h: Hist, lv: seq<int>, f: seq<nat>)
    requires h == FIVE_VALUES && AreLevels(lv) && f == Shifts(CodeMap(lv)) && f[2] == 1 && f[4] == 1 && f[7] == 0 && f[14] == 0 && f[15] == 0
    ensures LevelError(h, lv) == 2
  {
    UnitSum(h, f);
  }

  lemma FiveError(h: Hist, lv: seq<int>)
    requires h == FIVE_VALUES && lv == [-12, -8, 3, 12]
    ensures Subset(lv, 4) && LevelError(h, lv) == 2
  {
    FiveSubset(lv, 4);
    FiveShift(lv, 2);
    FiveShift(lv, 4);
    FiveShift(lv, 7);
    FiveShift(lv, 14);
    FiveShift(lv, 15);
    FiveTotal(h, lv, Shifts(CodeMap(lv)));
  }

  /** Four levels, with 1.0, 2.0, 6.0, -4.0 and -6.0 occurring. */
  lemma FourLevelsMiss(h: Hist, p: Points, r: seq<int>, k: nat, e: int, lv: seq<int>)
    requires h == FIVE_VALUES && k == 4 && p == PointsOf(h) && p.Valid() && Optimal(p, r, k, e) && lv == [-12, -8, 3, 12]
    ensures Subset(lv, k) && LevelError(h, lv) == 2 < e
  {
    FiveError(h, lv);
    FiveSpread(h, k, [-12, -8, 2, 4, 12]);
    DroppedValueIsBetter(h, p, r, k, e, lv);
  }
}
