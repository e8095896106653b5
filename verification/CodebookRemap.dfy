/** Remapping packed e2m1 bytes to a codebook: histogram, level choice, code map, byte table and the in-place rewrite.
    A byte holds two codes, low nibble first; values are twice the e2m1 values. */
module CodebookRemap {
  import opened CodebookDp

  /** Twice the value of code 0 .. 15; codes from 8 on are the negatives, zero included. */
  const VALUES: seq<int> := [0, 1, 2, 3, 4, 6, 8, 12, 0, -1, -2, -3, -4, -6, -8, -12]

  /** The fifteen distinct values, ascending. */
  const GRID: seq<int> := [-12, -8, -6, -4, -3, -2, -1, 0, 1, 2, 3, 4, 6, 8, 12]

  function Val(c: nat): int
    requires c < 16
  {
    VALUES[c]
  }

  /** The e2m1 format, doubled: a sign bit, two exponent bits (bias 1), one mantissa bit, subnormal at exponent zero. */
  lemma ValueFormat(c: nat)
    requires c < 16
    ensures var e, m := c % 8 / 2, c % 2;
      Val(c) == (if c >= 8 then -1 else 1) * (if e == 0 then m else (if e == 1 then 1 else if e == 2 then 2 else 4) * (2 + m))
  {
    if c % 8 < 2 {
    } else if c % 8 < 4 {
    } else if c % 8 < 6 {
    }
  }

  /** Where a code's value stands in the grid. */
  function GridOf(c: nat): (g: nat)
    requires c < 16
    ensures g < 15
  {
    if c < 8 then 7 + c else 15 - c
  }

  lemma GridValue(c: nat)
    requires c < 16
    ensures GRID[GridOf(c)] == Val(c)
  {
  }

  lemma GridAscends(a: nat, b: nat)
    requires a < b < 15
    ensures GRID[a] < GRID[b]
  {
  }

  // ------------------------------------------------------------------ histogram and points

  type Hist = h: seq<nat> | |h| == 16 witness seq(16, i => 0)

  /** +0 and -0 are one point. */
  function GridWeight(h: Hist, g: nat): nat
    requires g < 15
  {
    if g < 7 then h[15 - g] else if g == 7 then h[0] + h[8] else h[g - 7]
  }

  /** The occurring values among the first n of the grid, with their weights. */
  function PointsUpTo(h: Hist, n: nat): (p: Points)
    requires n <= 15
    ensures |p.v| == |p.w| <= n
  {
    if n == 0 then Points([], [])
    else
      var p := PointsUpTo(h, n - 1);
      if GridWeight(h, n - 1) > 0 then Points(p.v + [GRID[n - 1]], p.w + [GridWeight(h, n - 1)]) else p
  }

  function PointsOf(h: Hist): Points { PointsUpTo(h, 15) }

  lemma {:induction false} PointsAscend(h: Hist, n: nat)
    requires n <= 15
    ensures PointsUpTo(h, n).Valid()
    ensures forall a :: 0 <= a < |PointsUpTo(h, n).v| ==> exists g :: 0 <= g < n && GRID[g] == PointsUpTo(h, n).v[a] && GridWeight(h, g) > 0
  {
    if n > 0 {
      PointsAscend(h, n - 1);
      var q, p := PointsUpTo(h, n - 1), PointsUpTo(h, n);
      forall a, b | 0 <= a < b < |p.v|
        ensures p.v[a] < p.v[b]
      {
        if b == |q.v| {
          var g :| 0 <= g < n - 1 && GRID[g] == q.v[a];
          GridAscends(g, n - 1);
        }
      }
      forall a | 0 <= a < |p.v|
        ensures exists g :: 0 <= g < n && GRID[g] == p.v[a] && GridWeight(h, g) > 0
      {
        if a < |q.v| {
          var g :| 0 <= g < n - 1 && GRID[g] == q.v[a] && GridWeight(h, g) > 0;
        } else {
          assert GRID[n - 1] == p.v[a];
        }
      }
    }
  }

  /** Every occurring value is a point. */
  lemma {:induction false} PointsComplete(h: Hist, n: nat, g: nat) returns (a: nat)
    requires g < n <= 15 && GridWeight(h, g) > 0
    ensures a < |PointsUpTo(h, n).v| && PointsUpTo(h, n).v[a] == GRID[g]
  {
    if g == n - 1 {
      a := |PointsUpTo(h, n).v| - 1;
    } else {
      a := PointsComplete(h, n - 1, g);
    }
  }

  /** The merge of codes into grid bins, then the bins that occur. */
  method BuildPoints(h: Hist) returns (p: Points)
    ensures p == PointsOf(h)
  {
    var pts := new nat[15](i => 0);
    for c := 0 to 16
      invariant forall g :: 0 <= g < 15 ==> pts[g] == BinUpTo(h, g, c)
    {
      pts[GridOf(c)] := pts[GridOf(c)] + h[c];
    }
    p := Points([], []);
    for g := 0 to 15
      invariant p == PointsUpTo(h, g)
      invariant forall u :: 0 <= u < 15 ==> pts[u] == GridWeight(h, u)
    {
      if pts[g] > 0 {
        p := Points(p.v + [GRID[g]], p.w + [pts[g]]);
      }
    }
  }

  /** What bin g has received from the first c codes. */
  function BinUpTo(h: Hist, g: nat, c: nat): nat
    requires g < 15 && c <= 16
  {
    if g < 7 then (if 15 - g < c then h[15 - g] else 0)
    else if g == 7 then (if c > 0 then h[0] else 0) + (if c > 8 then h[8] else 0)
    else if g - 7 < c then h[g - 7] else 0
  }

  // ------------------------------------------------------------------ sums over codes

  /** Sum of h[c] * f[c] over the first n codes. */
  function HistSum(h: Hist, f: seq<nat>, n: nat): nat
    requires |f| == 16 && n <= 16
  {
    if n == 0 then 0 else HistSum(h, f, n - 1) + Times(h[n - 1], f[n - 1])
  }

  function Bump(h: Hist, c: nat): Hist
    requires c < 16
  {
    h[c := h[c] + 1]
  }

  lemma TimesNext(w: nat, d: nat)
    ensures Times(w + 1, d) == Times(w, d) + d
  {
  }

  lemma {:induction false} BumpSum(h: Hist, f: seq<nat>, c: nat, n: nat)
    requires |f| == 16 && c < 16 && n <= 16
    ensures HistSum(Bump(h, c), f, n) == HistSum(h, f, n) + if c < n then f[c] else 0
  {
    if n > 0 {
      BumpSum(h, f, c, n - 1);
      TimesNext(h[n - 1], f[n - 1]);
    }
  }

  predicate IsBytes(s: seq<nat>) { forall i :: 0 <= i < |s| ==> s[i] < 256 }

  /** How often each code occurs in a list of bytes. */
  function CodeHist(s: seq<nat>): Hist
    requires IsBytes(s)
  {
    if s == [] then seq(16, i => 0)
    else
      var b := s[|s| - 1];
      Bump(Bump(CodeHist(s[..|s| - 1]), b % 16), b / 16)
  }

  function Remapped(cmap: seq<nat>, b: nat): (r: nat)
    requires IsCodeMap(cmap) && b < 256
    ensures r < 256
  {
    cmap[b % 16] + 16 * cmap[b / 16]
  }

  predicate IsCodeMap(cmap: seq<nat>) { |cmap| == 16 && forall c :: 0 <= c < 16 ==> cmap[c] < 16 }

  /** Squared change of each code under a map. */
  function Shifts(cmap: seq<nat>): (f: seq<nat>)
    requires IsCodeMap(cmap)
    ensures |f| == 16
  {
    seq(16, c requires 0 <= c < 16 => Sq(Val(c) - Val(cmap[c])))
  }

  /** Squared change of a byte: of both its codes. */
  function ByteError(b: nat, b': nat): nat
    requires b < 256 && b' < 256
  {
    Sq(Val(b % 16) - Val(b' % 16)) + Sq(Val(b / 16) - Val(b' / 16))
  }

  /** The squared error a rewrite of the bytes really causes. */
  function TensorError(s: seq<nat>, s': seq<nat>): nat
    requires IsBytes(s) && IsBytes(s') && |s| == |s'|
  {
    if s == [] then 0 else TensorError(s[..|s| - 1], s'[..|s| - 1]) + ByteError(s[|s| - 1], s'[|s| - 1])
  }

  lemma Nibbles(lo: nat, hi: nat)
    requires lo < 16
    ensures (lo + 16 * hi) % 16 == lo && (lo + 16 * hi) / 16 == hi
  {
  }

  lemma ShiftAt(cmap: seq<nat>, c: nat, c': nat)
    requires IsCodeMap(cmap) && c < 16 && c' == cmap[c]
    ensures Shifts(cmap)[c] == Sq(Val(c) - Val(c'))
  {
  }

  lemma RemappedError(cmap: seq<nat>, b: nat)
    requires IsCodeMap(cmap) && b < 256
    ensures ByteError(b, Remapped(cmap, b)) == Shifts(cmap)[b % 16] + Shifts(cmap)[b / 16]
  {
    var l, h := b % 16, b / 16;
    var lo, hi, r := cmap[l], cmap[h], Remapped(cmap, b);
    Nibbles(lo, hi);
    assert r % 16 == lo && r / 16 == hi;
    ShiftAt(cmap, l, lo);
    ShiftAt(cmap, h, hi);
    assert ByteError(b, r) == Sq(Val(l) - Val(lo)) + Sq(Val(h) - Val(hi));
  }

  /** The histogram's error under a map is the bytes' error. */
  lemma {:induction false} HistogramError(cmap: seq<nat>, s: seq<nat>, s': seq<nat>)
    requires IsCodeMap(cmap) && IsBytes(s) && |s'| == |s| && forall i :: 0 <= i < |s| ==> s'[i] == Remapped(cmap, s[i])
    ensures IsBytes(s') && TensorError(s, s') == HistSum(CodeHist(s), Shifts(cmap), 16)
  {
    if s == [] {
      ZeroSum(Shifts(cmap), 16);
    } else {
      var n := |s| - 1;
      HistogramError(cmap, s[..n], s'[..n]);
      RemappedError(cmap, s[n]);
      var h := CodeHist(s[..n]);
      BumpSum(h, Shifts(cmap), s[n] % 16, 16);
      BumpSum(Bump(h, s[n] % 16), Shifts(cmap), s[n] / 16, 16);
    }
  }

  lemma {:induction false} ZeroSum(f: seq<nat>, n: nat)
    requires |f| == 16 && n <= 16
    ensures HistSum(seq(16, i => 0), f, n) == 0
  {
    if n > 0 {
      ZeroSum(f, n - 1);
    }
  }

  // ------------------------------------------------------------------ the code map

  function Abs(x: int): nat { if x < 0 then -x else x }

  lemma SquareMono(a: nat, b: nat)
    requires a < b
    ensures a * a < b * b
  {
    assert b * b - a * a == (b - a) * (b + a);
  }

  lemma AbsSquare(a: int)
    ensures Sq(a) == Abs(a) * Abs(a)
  {
  }

  lemma AbsSq(a: int, b: int)
    ensures Abs(a) <= Abs(b) <==> Sq(a) <= Sq(b)
  {
    AbsSquare(a);
    AbsSquare(b);
    if Abs(a) < Abs(b) {
      SquareMono(Abs(a), Abs(b));
    } else if Abs(b) < Abs(a) {
      SquareMono(Abs(b), Abs(a));
    }
  }

  /** The first nearest of the first n levels. */
  function ArgNear(lv: seq<int>, x: int, n: nat): (a: nat)
    requires 1 <= n <= |lv|
    ensures a < n
  {
    if n == 1 then 0 else
      var a := ArgNear(lv, x, n - 1);
      if Abs(lv[n - 1] - x) < Abs(lv[a] - x) then n - 1 else a
  }

  lemma {:induction false} ArgNearIsNearest(lv: seq<int>, x: int, n: nat, u: nat)
    requires u < n <= |lv|
    ensures Abs(lv[ArgNear(lv, x, n)] - x) <= Abs(lv[u] - x)
    ensures u < ArgNear(lv, x, n) ==> Abs(lv[ArgNear(lv, x, n)] - x) < Abs(lv[u] - x)
  {
    if u < n - 1 {
      ArgNearIsNearest(lv, x, n - 1, u);
    }
  }

  function Level(lv: seq<int>, c: nat): int
    requires |lv| > 0 && c < 16
  {
    lv[ArgNear(lv, Val(c), |lv|)]
  }

  /** The code of a level; a zero level keeps the sign of the code it replaces. */
  function CodeOf(level: int, c: nat): (r: nat)
    requires level in GRID && c < 16
    ensures r < 16 && Val(r) == level
  {
    if level == 0 then (if c >= 8 then 8 else 0)
    else
      var a := Abs(level);
      var mag := if a <= 4 then a else if a == 6 then 5 else if a == 8 then 6 else 7;
      if level < 0 then mag + 8 else mag
  }

  predicate AreLevels(lv: seq<int>) { |lv| > 0 && forall a :: 0 <= a < |lv| ==> lv[a] in GRID }

  /** lv is a k-element set of representable values, ascending. */
  predicate Subset(lv: seq<int>, k: nat) { AreLevels(lv) && |lv| == k && forall a, b :: 0 <= a < b < |lv| ==> lv[a] < lv[b] }

  function CodeMap(lv: seq<int>): (cmap: seq<nat>)
    requires AreLevels(lv)
    ensures IsCodeMap(cmap)
  {
    seq(16, c requires 0 <= c < 16 => CodeOf(Level(lv, c), c))
  }

  /** argmin of |lv - x|, first of ties. */
  method Nearest(lv: seq<int>, x: int) returns (a: nat)
    requires |lv| > 0
    ensures a == ArgNear(lv, x, |lv|)
  {
    a := 0;
    for u := 1 to |lv|
      invariant a == ArgNear(lv, x, u)
    {
      if Abs(lv[u] - x) < Abs(lv[a] - x) {
        a := u;
      }
    }
  }

  /** The table over all bytes of a code map, both nibbles at once. */
  method ByteLut(cmap: seq<nat>) returns (lut: seq<nat>)
    requires IsCodeMap(cmap)
    ensures |lut| == 256 && forall b :: 0 <= b < 256 ==> lut[b] == Remapped(cmap, b)
  {
    lut := [];
    for b := 0 to 256
      invariant |lut| == b && forall i :: 0 <= i < b ==> lut[i] == Remapped(cmap, i)
    {
      lut := lut + [cmap[b % 16] + 16 * cmap[b / 16]];
    }
  }

  /** build_lut: the code map and its byte table. */
  method BuildLut(lv: seq<int>) returns (lut: seq<nat>, cmap: seq<nat>)
    requires AreLevels(lv)
    ensures cmap == CodeMap(lv)
    ensures |lut| == 256 && forall b :: 0 <= b < 256 ==> lut[b] == Remapped(cmap, b)
    ensures |cmap| == 16 && forall c :: 0 <= c < 16 ==> Maps(lv, c, cmap[c])
  {
    cmap := BuildCodeMap(lv);
    lut := ByteLut(cmap);
    forall c | 0 <= c < 16
      ensures Maps(lv, c, cmap[c])
    {
      MapsNearest(lv, c);
    }
  }

  /** Code r stands for the first of the levels nearest to c's value; between the two zeros it keeps c's sign. */
  ghost predicate Maps(lv: seq<int>, c: nat, r: nat)
    requires c < 16
  {
    && r < 16 && (Val(r) == 0 ==> (r >= 8 <==> c >= 8))
    && exists a :: 0 <= a < |lv| && lv[a] == Val(r) && FirstNearest(lv, Val(c), a)
  }

  ghost predicate FirstNearest(lv: seq<int>, x: int, a: nat)
    requires a < |lv|
  {
    forall u :: 0 <= u < |lv| ==> Abs(lv[a] - x) <= Abs(lv[u] - x) && (u < a ==> Abs(lv[a] - x) < Abs(lv[u] - x))
  }

  lemma MapCode(lv: seq<int>, c: nat, x: int, r: nat)
    requires AreLevels(lv) && c < 16 && x == Val(c) && r == CodeMap(lv)[c]
    ensures r < 16 && Val(r) == lv[ArgNear(lv, x, |lv|)] && (Val(r) == 0 ==> (r >= 8 <==> c >= 8))
  {
  }

  lemma IsFirstNearest(lv: seq<int>, x: int)
    requires |lv| > 0
    ensures FirstNearest(lv, x, ArgNear(lv, x, |lv|))
  {
    forall u | 0 <= u < |lv|
      ensures Abs(lv[ArgNear(lv, x, |lv|)] - x) <= Abs(lv[u] - x)
      ensures u < ArgNear(lv, x, |lv|) ==> Abs(lv[ArgNear(lv, x, |lv|)] - x) < Abs(lv[u] - x)
    {
      ArgNearIsNearest(lv, x, |lv|, u);
    }
  }

  lemma MapsNearest(lv: seq<int>, c: nat)
    requires AreLevels(lv) && c < 16
    ensures Maps(lv, c, CodeMap(lv)[c])
  {
    var x := Val(c);
    MapCode(lv, c, x, CodeMap(lv)[c]);
    IsFirstNearest(lv, x);
  }

  method BuildCodeMap(lv: seq<int>) returns (cmap: seq<nat>)
    requires AreLevels(lv)
    ensures cmap == CodeMap(lv)
  {
    cmap := [];
    for c := 0 to 16
      invariant |cmap| == c && forall i :: 0 <= i < c ==> cmap[i] == CodeMap(lv)[i]
    {
      var a := Nearest(lv, Val(c));
      cmap := cmap + [CodeOf(lv[a], c)];
    }
  }

  /** A code whose value is itself a level keeps its code, signed zeros included. */
  lemma KeepsLevel(lv: seq<int>, c: nat, a: nat)
    requires AreLevels(lv) && c < 16 && a < |lv| && lv[a] == Val(c)
    ensures CodeMap(lv)[c] == c
  {
    ArgNearIsNearest(lv, Val(c), |lv|, a);
    assert Level(lv, c) == Val(c);
  }

  // ------------------------------------------------------------------ the error returned is the error caused

  lemma {:induction false} NearIsLeast(p: Points, r: seq<int>, x: int, a: nat)
    requires a < |r| && forall i :: 0 <= i < |r| ==> 0 <= r[i] < |p.v|
    ensures Near(p, r, x) <= Sq(x - p.v[r[a]])
  {
    if a < |r| - 1 {
      assert r[..|r| - 1][a] == r[a];
      NearIsLeast(p, r[..|r| - 1], x, a);
    }
  }

  lemma {:induction false} NearIsAttained(p: Points, r: seq<int>, x: int) returns (a: nat)
    requires |r| > 0 && forall i :: 0 <= i < |r| ==> 0 <= r[i] < |p.v|
    ensures a < |r| && Near(p, r, x) == Sq(x - p.v[r[a]])
  {
    a := |r| - 1;
    if Near(p, r, x) != Sq(x - p.v[r[a]]) {
      a := NearIsAttained(p, r[..|r| - 1], x);
      assert r[..|r| - 1][a] == r[a];
    }
  }

  /** The level the map picks is at the nearest distance. */
  lemma NearestIsNear(p: Points, r: seq<int>, lv: seq<int>, x: int)
    requires |r| > 0 && (forall i :: 0 <= i < |r| ==> 0 <= r[i] < |p.v|) && lv == Values(p, r)
    ensures Sq(x - lv[ArgNear(lv, x, |lv|)]) == Near(p, r, x)
  {
    var a := NearIsAttained(p, r, x);
    var b := ArgNear(lv, x, |lv|);
    ArgNearIsNearest(lv, x, |lv|, a);
    NearIsLeast(p, r, x, b);
    NearestSquares(lv[a], lv[b], x, Near(p, r, x));
  }

  lemma NearestSquares(a: int, b: int, x: int, d: int)
    requires Abs(b - x) <= Abs(a - x) && d == Sq(x - a) && d <= Sq(x - b)
    ensures Sq(x - b) == d
  {
    AbsSq(b - x, a - x);
    SqFlip(b - x);
    SqFlip(a - x);
  }

  lemma SqFlip(x: int)
    ensures Sq(-x) == Sq(x)
  {
  }

  /** Sum over the first n grid values. */
  function GridSum(h: Hist, d: seq<nat>, n: nat): nat
    requires |d| == 15 && n <= 15
  {
    if n == 0 then 0 else GridSum(h, d, n - 1) + Times(GridWeight(h, n - 1), d[n - 1])
  }

  lemma TimesAdd(a: nat, b: nat, d: nat)
    ensures Times(a + b, d) == Times(a, d) + Times(b, d)
  {
  }

  lemma HistTerms(h: Hist, f: seq<nat>)
    requires |f| == 16
    ensures HistSum(h, f, 8) == Times(h[0], f[0]) + Times(h[1], f[1]) + Times(h[2], f[2]) + Times(h[3], f[3])
      + Times(h[4], f[4]) + Times(h[5], f[5]) + Times(h[6], f[6]) + Times(h[7], f[7])
    ensures HistSum(h, f, 16) == HistSum(h, f, 8) + Times(h[8], f[8]) + Times(h[9], f[9]) + Times(h[10], f[10]) + Times(h[11], f[11])
      + Times(h[12], f[12]) + Times(h[13], f[13]) + Times(h[14], f[14]) + Times(h[15], f[15])
  {
    assert HistSum(h, f, 1) == Times(h[0], f[0]);
    assert HistSum(h, f, 2) == Times(h[0], f[0]) + Times(h[1], f[1]);
    assert HistSum(h, f, 4) == HistSum(h, f, 2) + Times(h[2], f[2]) + Times(h[3], f[3]);
    assert HistSum(h, f, 6) == HistSum(h, f, 4) + Times(h[4], f[4]) + Times(h[5], f[5]);
    assert HistSum(h, f, 10) == HistSum(h, f, 8) + Times(h[8], f[8]) + Times(h[9], f[9]);
    assert HistSum(h, f, 12) == HistSum(h, f, 10) + Times(h[10], f[10]) + Times(h[11], f[11]);
    assert HistSum(h, f, 14) == HistSum(h, f, 12) + Times(h[12], f[12]) + Times(h[13], f[13]);
  }

  lemma GridTerms(h: Hist, d: seq<nat>)
    requires |d| == 15
    ensures GridSum(h, d, 7) == Times(h[15], d[0]) + Times(h[14], d[1]) + Times(h[13], d[2]) + Times(h[12], d[3])
      + Times(h[11], d[4]) + Times(h[10], d[5]) + Times(h[9], d[6])
    ensures GridSum(h, d, 15) == GridSum(h, d, 7) + Times(h[0] + h[8], d[7]) + Times(h[1], d[8]) + Times(h[2], d[9]) + Times(h[3], d[10])
      + Times(h[4], d[11]) + Times(h[5], d[12]) + Times(h[6], d[13]) + Times(h[7], d[14])
  {
    assert GridSum(h, d, 1) == Times(h[15], d[0]);
    assert GridSum(h, d, 2) == Times(h[15], d[0]) + Times(h[14], d[1]);
    assert GridSum(h, d, 4) == GridSum(h, d, 2) + Times(h[13], d[2]) + Times(h[12], d[3]);
    assert GridSum(h, d, 6) == GridSum(h, d, 4) + Times(h[11], d[4]) + Times(h[10], d[5]);
    assert GridSum(h, d, 8) == GridSum(h, d, 6) + Times(h[9], d[6]) + Times(h[0] + h[8], d[7]);
    assert GridSum(h, d, 10) == GridSum(h, d, 8) + Times(h[1], d[8]) + Times(h[2], d[9]);
    assert GridSum(h, d, 12) == GridSum(h, d, 10) + Times(h[3], d[10]) + Times(h[4], d[11]);
    assert GridSum(h, d, 14) == GridSum(h, d, 12) + Times(h[5], d[12]) + Times(h[6], d[13]);
  }

  /** Summing over codes is summing over grid values, the two zeros merged. */
  lemma CodesToGrid(h: Hist, f: seq<nat>, d: seq<nat>)
    requires |f| == 16 && |d| == 15 && forall c :: 0 <= c < 16 ==> f[c] == d[GridOf(c)]
    ensures HistSum(h, f, 16) == GridSum(h, d, 15)
  {
    HistTerms(h, f);
    GridTerms(h, d);
    TimesAdd(h[0], h[8], d[7]);
  }

  lemma {:induction false} PointsPrefix(h: Hist, n: nat, m: nat)
    requires n <= m <= 15
    ensures |PointsUpTo(h, n).v| <= |PointsUpTo(h, m).v|
    ensures PointsUpTo(h, n).v == PointsUpTo(h, m).v[..|PointsUpTo(h, n).v|] && PointsUpTo(h, n).w == PointsUpTo(h, m).w[..|PointsUpTo(h, n).v|]
  {
    if n < m {
      PointsPrefix(h, n, m - 1);
    }
  }

  /** Dropping the values that never occur changes no error. */
  lemma {:induction false} GridToPoints(h: Hist, r: seq<int>, d: seq<nat>, n: nat)
    requires n <= 15 && |d| == 15 && |r| > 0 && forall i :: 0 <= i < |r| ==> 0 <= r[i] < |PointsOf(h).v|
    requires forall g :: 0 <= g < 15 ==> d[g] == Near(PointsOf(h), r, GRID[g])
    ensures |PointsUpTo(h, n).v| <= |PointsOf(h).v| && GridSum(h, d, n) == Error(PointsOf(h), r, |PointsUpTo(h, n).v|)
  {
    PointsPrefix(h, n, |GRID|);
    if n > 0 {
      GridToPoints(h, r, d, n - 1);
      var p, m := PointsOf(h), |PointsUpTo(h, n).v|;
      if GridWeight(h, n - 1) > 0 {
        assert p.v[m - 1] == PointsUpTo(h, n).v[m - 1] == GRID[n - 1];
        assert p.w[m - 1] == PointsUpTo(h, n).w[m - 1] == GridWeight(h, n - 1);
      } else {
        assert Times(GridWeight(h, n - 1), d[n - 1]) == 0;
      }
    }
  }

  lemma PointsAreLevels(h: Hist, r: seq<int>)
    requires |r| > 0 && forall i :: 0 <= i < |r| ==> 0 <= r[i] < |PointsOf(h).v|
    ensures AreLevels(Values(PointsOf(h), r))
  {
    PointsAscend(h, 15);
  }

  lemma MappedValue(lv: seq<int>, c: nat, x: int)
    requires AreLevels(lv) && c < 16 && x == Val(c)
    ensures Shifts(CodeMap(lv))[c] == Sq(x - lv[ArgNear(lv, x, |lv|)])
  {
    ShiftAt(CodeMap(lv), c, CodeOf(Level(lv, c), c));
  }

  lemma ShiftIsNear(p: Points, r: seq<int>, lv: seq<int>, c: nat, x: int)
    requires |r| > 0 && c < 16 && (forall i :: 0 <= i < |r| ==> 0 <= r[i] < |p.v|) && lv == Values(p, r) && AreLevels(lv) && x == Val(c)
    ensures Shifts(CodeMap(lv))[c] == Near(p, r, x)
  {
    MappedValue(lv, c, x);
    NearestIsNear(p, r, lv, x);
  }

  /** The quantiser's error for its levels is the histogram error of the code map built from them. */
  lemma MapErrorIsLevelError(h: Hist, p: Points, r: seq<int>, lv: seq<int>)
    requires p == PointsOf(h) && |r| > 0 && (forall i :: 0 <= i < |r| ==> 0 <= r[i] < |p.v|) && lv == Values(p, r)
    ensures AreLevels(lv) && HistSum(h, Shifts(CodeMap(lv)), 16) == Error(p, r, |p.v|)
  {
    PointsAreLevels(h, r);
    var f := Shifts(CodeMap(lv));
    var d: seq<nat> := seq(15, g requires 0 <= g < 15 => Near(p, r, GRID[g]));
    forall c | 0 <= c < 16
      ensures f[c] == d[GridOf(c)]
    {
      GridValue(c);
      ShiftIsNear(p, r, lv, c, Val(c));
    }
    CodesToGrid(h, f, d);
    GridToPoints(h, r, d, 15);
  }

  // ------------------------------------------------------------------ enough levels for every occurring value

  /** As many levels as points: every point is a level. */
  lemma {:induction false} AllLevels(p: Points, r: seq<int>, a: nat)
    requires Levels(p, r) && |r| == |p.v| && a < |r|
    ensures r[a] == a
    decreases |r| - a
  {
    LevelAtLeast(p, r, a);
    if a + 1 < |r| {
      AllLevels(p, r, a + 1);
      assert r[a] < r[a + 1];
    }
  }

  lemma CodeIsPoint(h: Hist, c: nat) returns (a: nat)
    requires c < 16 && h[c] > 0
    ensures a < |PointsOf(h).v| && PointsOf(h).v[a] == Val(c)
  {
    GridValue(c);
    assert GridWeight(h, GridOf(c)) > 0;
    a := PointsComplete(h, |GRID|, GridOf(c));
  }

  /** Then an occurring code is mapped to itself. */
  lemma OccurringKept(h: Hist, p: Points, r: seq<int>, lv: seq<int>, c: nat)
    requires p == PointsOf(h) && Levels(p, r) && |r| == |p.v| && lv == Values(p, r) && c < 16 && h[c] > 0
    ensures |r| > 0 && AreLevels(lv) && CodeMap(lv)[c] == c
  {
    var a := CodeIsPoint(h, c);
    PointsAreLevels(h, r);
    AllLevels(p, r, a);
    KeepsLevel(lv, c, a);
  }

  lemma {:induction false} CodesOccur(s: seq<nat>, i: nat)
    requires IsBytes(s) && i < |s|
    ensures CodeHist(s)[s[i] % 16] > 0 && CodeHist(s)[s[i] / 16] > 0
  {
    if i < |s| - 1 {
      CodesOccur(s[..|s| - 1], i);
    }
  }

  lemma SameByte(cmap: seq<nat>, b: nat)
    requires IsCodeMap(cmap) && b < 256 && cmap[b % 16] == b % 16 && cmap[b / 16] == b / 16
    ensures Remapped(cmap, b) == b
  {
  }

  // ------------------------------------------------------------------ one tensor

  /** bincount over bytes, then the sums over high and over low nibbles. */
  method Histogram(seg: seq<nat>) returns (h: Hist)
    requires IsBytes(seg)
    ensures h == CodeHist(seg)
  {
    var h256 := CountBytes(seg);
    var out: seq<nat> := [];
    for c := 0 to 16
      invariant |out| == c && forall i :: 0 <= i < c ==> out[i] == LowSum(h256, i, 16) + HighSum(h256, i, 16)
    {
      var x := 0;
      for u := 0 to 16
        invariant x == LowSum(h256, c, u)
      {
        x := x + h256[u * 16 + c];
      }
      for u := 0 to 16
        invariant x == LowSum(h256, c, 16) + HighSum(h256, c, u)
      {
        x := x + h256[c * 16 + u];
      }
      out := out + [x];
    }
    h := out;
    forall c | 0 <= c < 16
      ensures out[c] == CodeHist(seg)[c]
    {
      CountsAreHist(seg, c);
    }
  }

  /** Occurrences of every byte. */
  function ByteHist(s: seq<nat>): (h: seq<nat>)
    requires IsBytes(s)
    ensures |h| == 256
  {
    if s == [] then seq(256, i => 0)
    else
      var b, h := s[|s| - 1], ByteHist(s[..|s| - 1]);
      h[b := h[b] + 1]
  }

  method CountBytes(seg: seq<nat>) returns (h: seq<nat>)
    requires IsBytes(seg)
    ensures h == ByteHist(seg)
  {
    h := seq(256, i => 0);
    for i := 0 to |seg|
      invariant h == ByteHist(seg[..i])
    {
      assert seg[..i + 1][..i] == seg[..i];
      h := h[seg[i] := h[seg[i]] + 1];
    }
    assert seg[..|seg|] == seg;
  }

  function LowSum(h: seq<nat>, c: nat, n: nat): nat
    requires |h| == 256 && c < 16 && n <= 16
  {
    if n == 0 then 0 else LowSum(h, c, n - 1) + h[(n - 1) * 16 + c]
  }

  function HighSum(h: seq<nat>, c: nat, n: nat): nat
    requires |h| == 256 && c < 16 && n <= 16
  {
    if n == 0 then 0 else HighSum(h, c, n - 1) + h[c * 16 + (n - 1)]
  }

  lemma {:induction false} BumpLow(h: seq<nat>, b: nat, c: nat, n: nat)
    requires |h| == 256 && b < 256 && c < 16 && n <= 16
    ensures LowSum(h[b := h[b] + 1], c, n) == LowSum(h, c, n) + if b % 16 == c && b / 16 < n then 1 else 0
  {
    if n > 0 {
      BumpLow(h, b, c, n - 1);
      assert (n - 1) * 16 + c == b <==> b % 16 == c && b / 16 == n - 1;
    }
  }

  lemma {:induction false} BumpHigh(h: seq<nat>, b: nat, c: nat, n: nat)
    requires |h| == 256 && b < 256 && c < 16 && n <= 16
    ensures HighSum(h[b := h[b] + 1], c, n) == HighSum(h, c, n) + if b / 16 == c && b % 16 < n then 1 else 0
  {
    if n > 0 {
      BumpHigh(h, b, c, n - 1);
      assert c * 16 + (n - 1) == b <==> b / 16 == c && b % 16 == n - 1;
    }
  }

  lemma {:induction false} ZeroCounts(c: nat, n: nat)
    requires c < 16 && n <= 16
    ensures LowSum(seq(256, i => 0), c, n) == 0 && HighSum(seq(256, i => 0), c, n) == 0
  {
    if n > 0 {
      ZeroCounts(c, n - 1);
    }
  }

  /** The two sums over the byte counts are the code counts. */
  lemma {:induction false} CountsAreHist(s: seq<nat>, c: nat)
    requires IsBytes(s) && c < 16
    ensures LowSum(ByteHist(s), c, 16) + HighSum(ByteHist(s), c, 16) == CodeHist(s)[c]
  {
    if s == [] {
      ZeroCounts(c, 16);
    } else {
      var n := |s| - 1;
      CountsAreHist(s[..n], c);
      BumpLow(ByteHist(s[..n]), s[n], c, 16);
      BumpHigh(ByteHist(s[..n]), s[n], c, 16);
    }
  }

  // ------------------------------------------------------------------ the best rewrite, said of the bytes alone

  /** Some nibble of the bytes has value x. */
  ghost predicate Occurs(s: seq<nat>, x: int)
    requires IsBytes(s)
  {
    exists i :: 0 <= i < |s| && (Val(s[i] % 16) == x || Val(s[i] / 16) == x)
  }

  /** Every nibble of the bytes has one of the values. */
  ghost predicate OnLevels(s: seq<nat>, lv: seq<int>)
    requires IsBytes(s)
  {
    forall i :: 0 <= i < |s| ==> Val(s[i] % 16) in lv && Val(s[i] / 16) in lv
  }

  /** An ascending choice of occurring values. */
  ghost predicate Chosen(s: seq<nat>, lv: seq<int>)
    requires IsBytes(s)
  {
    (forall a, b :: 0 <= a < b < |lv| ==> lv[a] < lv[b]) && forall a :: 0 <= a < |lv| ==> Occurs(s, lv[a])
  }

  /** s2 is a rewrite of s onto a choice of n occurring values. */
  ghost predicate Rewrite(s: seq<nat>, s2: seq<nat>, lv: seq<int>, n: nat)
    requires IsBytes(s)
  {
    |s2| == |s| && IsBytes(s2) && Chosen(s, lv) && |lv| == n && OnLevels(s2, lv)
  }

  /** The rewrite puts the bytes on at most k occurring values, fewer only if those are all, at the least squared error that any
      rewrite onto as many occurring values causes. */
  ghost predicate BestRewrite(s: seq<nat>, s2: seq<nat>, k: nat, levels: seq<int>, sse: int)
    requires IsBytes(s)
  {
    && Rewrite(s, s2, levels, |levels|) && |levels| <= k && (|levels| < k ==> forall x :: Occurs(s, x) ==> x in levels)
    && sse == TensorError(s, s2)
    && forall s3, lv :: Rewrite(s, s3, lv, |levels|) ==> sse <= TensorError(s, s3)
  }

  lemma OccursIsPoint(s: seq<nat>, x: int) returns (a: nat)
    requires IsBytes(s) && Occurs(s, x)
    ensures a < |PointsOf(CodeHist(s)).v| && PointsOf(CodeHist(s)).v[a] == x
  {
    var i :| 0 <= i < |s| && (Val(s[i] % 16) == x || Val(s[i] / 16) == x);
    CodesOccur(s, i);
    a := CodeIsPoint(CodeHist(s), if Val(s[i] % 16) == x then s[i] % 16 else s[i] / 16);
  }

  lemma {:induction false} CountedOccurs(s: seq<nat>, c: nat)
    requires IsBytes(s) && c < 16 && CodeHist(s)[c] > 0
    ensures Occurs(s, Val(c))
  {
    var n := |s| - 1;
    if s[n] % 16 == c || s[n] / 16 == c {
      assert Val(s[n] % 16) == Val(c) || Val(s[n] / 16) == Val(c);
    } else {
      CountedOccurs(s[..n], c);
      var i :| 0 <= i < n && (Val(s[..n][i] % 16) == Val(c) || Val(s[..n][i] / 16) == Val(c));
      assert s[..n][i] == s[i];
    }
  }

  lemma WeighedCode(h: Hist, g: nat) returns (c: nat)
    requires g < 15 && GridWeight(h, g) > 0
    ensures c < 16 && h[c] > 0 && Val(c) == GRID[g]
  {
    c := if g < 7 then 15 - g else if g > 7 then g - 7 else if h[0] > 0 then 0 else 8;
  }

  lemma PointOccurs(s: seq<nat>, a: nat)
    requires IsBytes(s) && a < |PointsOf(CodeHist(s)).v|
    ensures Occurs(s, PointsOf(CodeHist(s)).v[a])
  {
    var h := CodeHist(s);
    PointsAscend(h, |GRID|);
    var g :| 0 <= g < 15 && GRID[g] == PointsOf(h).v[a] && GridWeight(h, g) > 0;
    var c := WeighedCode(h, g);
    CountedOccurs(s, c);
  }

  /** A choice of occurring values, by their places among the points. */
  lemma {:induction false} PlacesOf(s: seq<nat>, p: Points, lv: seq<int>) returns (r: seq<int>)
    requires IsBytes(s) && p == PointsOf(CodeHist(s)) && p.Valid() && Chosen(s, lv)
    ensures Levels(p, r) && lv == Values(p, r)
  {
    r := [];
    if lv != [] {
      var n := |lv| - 1;
      var front := PlacesOf(s, p, lv[..n]);
      var a := OccursIsPoint(s, lv[n]);
      forall i | 0 <= i < n
        ensures front[i] < a
      {
        assert p.v[front[i]] == Values(p, front)[i] == lv[i] < lv[n];
        assert p.v[front[i]] < p.v[a];
      }
      r := front + [a];
      assert Values(p, r) == Values(p, front) + [lv[n]];
    }
  }

  lemma NearLeast(a: int, b: int, x: int)
    requires Abs(a - x) <= Abs(b - x)
    ensures Sq(x - a) <= Sq(x - b)
  {
    AbsSq(a - x, b - x);
    SqFlip(a - x);
    SqFlip(b - x);
  }

  lemma NearestLeast(lv: seq<int>, x: int, y: int)
    requires y in lv
    ensures Sq(x - lv[ArgNear(lv, x, |lv|)]) <= Sq(x - y)
  {
    var u :| 0 <= u < |lv| && lv[u] == y;
    ArgNearIsNearest(lv, x, |lv|, u);
    NearLeast(lv[ArgNear(lv, x, |lv|)], y, x);
  }

  lemma NibbleLeast(lv: seq<int>, c: nat, x: int, y: int)
    requires AreLevels(lv) && c < 16 && x == Val(c) && y in lv
    ensures Shifts(CodeMap(lv))[c] <= Sq(x - y)
  {
    MappedValue(lv, c, x);
    NearestLeast(lv, x, y);
  }

  lemma ByteLeast(lv: seq<int>, b: nat, b3: nat)
    requires AreLevels(lv) && b < 256 && b3 < 256 && Val(b3 % 16) in lv && Val(b3 / 16) in lv
    ensures ByteError(b, Remapped(CodeMap(lv), b)) <= ByteError(b, b3)
  {
    RemappedError(CodeMap(lv), b);
    NibbleLeast(lv, b % 16, Val(b % 16), Val(b3 % 16));
    NibbleLeast(lv, b / 16, Val(b / 16), Val(b3 / 16));
  }

  /** No rewrite that is nowhere better byte by byte has less error. */
  lemma {:induction false} ErrorMono(s: seq<nat>, t: seq<nat>, s3: seq<nat>)
    requires IsBytes(s) && IsBytes(s3) && IsBytes(t) && |s3| == |t| == |s|
    requires forall i :: 0 <= i < |s| ==> ByteError(s[i], t[i]) <= ByteError(s[i], s3[i])
    ensures TensorError(s, t) <= TensorError(s, s3)
  {
    if s != [] {
      var n := |s| - 1;
      forall i | 0 <= i < n
        ensures ByteError(s[..n][i], t[..n][i]) <= ByteError(s[..n][i], s3[..n][i])
      {
        assert ByteError(s[i], t[i]) <= ByteError(s[i], s3[i]);
      }
      ErrorMono(s[..n], t[..n], s3[..n]);
    }
  }

  /** No rewrite onto the levels beats their code map. */
  lemma MapIsLeast(s: seq<nat>, s3: seq<nat>, t: seq<nat>, lv: seq<int>)
    requires IsBytes(s) && IsBytes(s3) && IsBytes(t) && |s3| == |t| == |s| && AreLevels(lv) && OnLevels(s3, lv)
    requires forall i :: 0 <= i < |s| ==> t[i] == Remapped(CodeMap(lv), s[i])
    ensures TensorError(s, t) <= TensorError(s, s3)
  {
    forall i | 0 <= i < |s|
      ensures ByteError(s[i], t[i]) <= ByteError(s[i], s3[i])
    {
      ByteLeast(lv, s[i], s3[i]);
    }
    ErrorMono(s, t, s3);
  }

  /** The error of the levels' own code map, by the places of the levels among the points. */
  lemma RewriteError(s: seq<nat>, s3: seq<nat>, lv: seq<int>, p: Points) returns (r: seq<int>)
    requires IsBytes(s) && |s| > 0 && p == PointsOf(CodeHist(s)) && p.Valid() && |lv| > 0 && Rewrite(s, s3, lv, |lv|)
    ensures Levels(p, r) && |r| == |lv| && Error(p, r, |p.v|) <= TensorError(s, s3)
  {
    r := PlacesOf(s, p, lv);
    MapErrorIsLevelError(CodeHist(s), p, r, lv);
    var cmap := CodeMap(lv);
    var t := seq(|s|, i requires 0 <= i < |s| => Remapped(cmap, s[i]));
    HistogramError(cmap, s, t);
    MapIsLeast(s, s3, t, lv);
  }

  lemma ChosenLevels(s: seq<nat>, p: Points, r: seq<int>, lv: seq<int>)
    requires IsBytes(s) && p == PointsOf(CodeHist(s)) && p.Valid() && Levels(p, r) && lv == Values(p, r)
    ensures Chosen(s, lv)
  {
    forall a | 0 <= a < |lv|
      ensures Occurs(s, lv[a])
    {
      PointOccurs(s, r[a]);
    }
  }

  lemma MappedIn(lv: seq<int>, c: nat)
    requires AreLevels(lv) && c < 16
    ensures Val(CodeMap(lv)[c]) in lv
  {
    assert Val(CodeMap(lv)[c]) == Level(lv, c);
  }

  lemma ByteOnLevels(lv: seq<int>, b: nat, r: nat)
    requires AreLevels(lv) && b < 256 && r == Remapped(CodeMap(lv), b)
    ensures r < 256 && Val(r % 16) in lv && Val(r / 16) in lv
  {
    var lo, hi := CodeMap(lv)[b % 16], CodeMap(lv)[b / 16];
    Nibbles(lo, hi);
    MappedIn(lv, b % 16);
    MappedIn(lv, b / 16);
  }

  lemma MappedOnLevels(s: seq<nat>, t: seq<nat>, lv: seq<int>)
    requires IsBytes(s) && IsBytes(t) && |t| == |s| && AreLevels(lv) && forall i :: 0 <= i < |s| ==> t[i] == Remapped(CodeMap(lv), s[i])
    ensures OnLevels(t, lv)
  {
    forall i | 0 <= i < |s|
      ensures Val(t[i] % 16) in lv && Val(t[i] / 16) in lv
    {
      ByteOnLevels(lv, s[i], t[i]);
    }
  }

  /** A best choice of levels, rewritten by its code map, is a best rewrite of the bytes. */
  lemma OptimalIsBest(s: seq<nat>, t: seq<nat>, p: Points, r: seq<int>, k: nat, lv: seq<int>, sse: int)
    requires IsBytes(s) && |s| > 0 && k > 0 && IsBytes(t) && |t| == |s| && p == PointsOf(CodeHist(s)) && p.Valid() && |p.v| > 0
    requires Optimal(p, r, if k < |p.v| then k else |p.v|, sse) && lv == Values(p, r) && AreLevels(lv)
    requires sse == TensorError(s, t) && forall i :: 0 <= i < |s| ==> t[i] == Remapped(CodeMap(lv), s[i])
    ensures BestRewrite(s, t, k, lv, sse)
  {
    ChosenLevels(s, p, r, lv);
    MappedOnLevels(s, t, lv);
    if |lv| < k {
      forall x | Occurs(s, x)
        ensures x in lv
      {
        var a := OccursIsPoint(s, x);
        AllLevels(p, r, a);
        assert lv[a] == x;
      }
    }
    forall s3, lv3 | Rewrite(s, s3, lv3, |lv|)
      ensures sse <= TensorError(s, s3)
    {
      var q := RewriteError(s, s3, lv3, p);
    }
  }

  // ------------------------------------------------------------------ the tensor mode

  /** seg[:] = lut[seg]. */
  method ApplyLut(seg: array<nat>, lut: seq<nat>)
    requires IsBytes(seg[..]) && |lut| == 256
    modifies seg
    ensures forall i :: 0 <= i < seg.Length ==> seg[i] == lut[old(seg[i])]
  {
    for i := 0 to seg.Length
      invariant forall u :: 0 <= u < i ==> seg[u] == lut[old(seg[u])]
      invariant forall u :: i <= u < seg.Length ==> seg[u] == old(seg[u])
    {
      assert old(seg[..])[i] == old(seg[i]);
      seg[i] := lut[seg[i]];
    }
  }

  /** The tensor mode of process_file for one tensor: nothing to choose from (no byte, or K = 0) is the source's index error.
      Otherwise the bytes are rewritten onto min(K, occurring) occurring values, the error returned is the one the rewrite
      causes, and no rewrite onto as many occurring values causes less; with K at least the number of occurring values no byte
      changes. */
  method ProcessTensor(seg: array<nat>, k: nat) returns (ok: bool, levels: seq<int>, sse: int)
    requires IsBytes(seg[..])
    modifies seg
    ensures ok <==> seg.Length > 0 && k > 0
    ensures !ok ==> seg[..] == old(seg[..])
    ensures ok ==> IsBytes(seg[..]) && sse == TensorError(old(seg[..]), seg[..]) && BestRewrite(old(seg[..]), seg[..], k, levels, sse)
    ensures ok ==> BestFor(CodeHist(old(seg[..])), k, levels, sse)
    ensures ok && k >= |PointsOf(CodeHist(old(seg[..]))).v| ==> seg[..] == old(seg[..])
  {
    ghost var was := seg[..];
    var h := Histogram(seg[..]);
    var p := BuildPoints(h);
    PointsAscend(h, 15);
    PointsEmpty(was);
    ok, levels, sse := |p.v| > 0 && k > 0, [], 0;
    if ok {
      levels, sse := RemapTensor(seg, h, p, k);
    }
  }

  method RemapTensor(seg: array<nat>, h: Hist, p: Points, k: nat) returns (levels: seq<int>, sse: int)
    requires IsBytes(seg[..]) && h == CodeHist(seg[..]) && p == PointsOf(h) && p.Valid() && |p.v| > 0 && k > 0
    modifies seg
    ensures IsBytes(seg[..]) && BestRewrite(old(seg[..]), seg[..], k, levels, sse)
    ensures BestFor(h, k, levels, sse)
    ensures k >= |p.v| ==> seg[..] == old(seg[..])
  {
    ghost var was := seg[..];
    levels, sse := ChooseLevels(p, k);
    BestAreLevels(h, p, k, levels, sse);
    var lut, cmap := BuildLut(levels);
    ApplyLut(seg, lut);
    RemapIsBest(was, seg[..], h, p, k, levels, sse, cmap, lut);
  }

  lemma BestAreLevels(h: Hist, p: Points, k: nat, levels: seq<int>, sse: int)
    requires p == PointsOf(h) && BestLevels(p, k, levels, sse)
    ensures AreLevels(levels) && BestFor(h, k, levels, sse)
  {
    var r: seq<int> :| Optimal(p, r, if k < |p.v| then k else |p.v|, sse) && levels == Values(p, r);
    PointsAreLevels(h, r);
  }

  lemma RemapIsBest(was: seq<nat>, now: seq<nat>, h: Hist, p: Points, k: nat, levels: seq<int>, sse: int, cmap: seq<nat>, lut: seq<nat>)
    requires IsBytes(was) && |now| == |was| && h == CodeHist(was) && p == PointsOf(h) && BestLevels(p, k, levels, sse)
    requires AreLevels(levels) && cmap == CodeMap(levels)
    requires |lut| == 256 && forall b :: 0 <= b < 256 ==> lut[b] == Remapped(cmap, b)
    requires forall i :: 0 <= i < |was| ==> now[i] == lut[was[i]]
    ensures IsBytes(now) && BestRewrite(was, now, k, levels, sse)
    ensures k >= |p.v| ==> now == was
  {
    var r: seq<int> :| Optimal(p, r, if k < |p.v| then k else |p.v|, sse) && levels == Values(p, r);
    MapErrorIsLevelError(h, p, r, levels);
    Rewritten(was, now, h, p, r, levels, cmap, lut);
    PointsEmpty(was);
    OptimalIsBest(was, now, p, r, k, levels, sse);
  }

  lemma PointsEmpty(s: seq<nat>)
    requires IsBytes(s)
    ensures |PointsOf(CodeHist(s)).v| > 0 <==> |s| > 0
  {
    if |s| > 0 {
      CodesOccur(s, 0);
      var a := PointsComplete(CodeHist(s), 15, GridOf(s[0] % 16));
    } else {
      NoPoints(15);
    }
  }

  lemma {:induction false} NoPoints(n: nat)
    requires n <= 15
    ensures PointsUpTo(seq(16, i => 0), n).v == []
  {
    if n > 0 {
      NoPoints(n - 1);
    }
  }

  /** levels are a best choice of min(k, occurring) occurring values. */
  ghost predicate BestFor(h: Hist, k: nat, levels: seq<int>, sse: int) { BestLevels(PointsOf(h), k, levels, sse) }

  lemma Rewritten(was: seq<nat>, seg: seq<nat>, h: Hist, p: Points, r: seq<int>, lv: seq<int>, cmap: seq<nat>, lut: seq<nat>)
    requires IsBytes(was) && |seg| == |was| && h == CodeHist(was) && p == PointsOf(h) && p.Valid()
    requires Levels(p, r) && |r| > 0 && lv == Values(p, r) && AreLevels(lv) && cmap == CodeMap(lv)
    requires HistSum(h, Shifts(cmap), 16) == Error(p, r, |p.v|)
    requires |lut| == 256 && forall b :: 0 <= b < 256 ==> lut[b] == Remapped(cmap, b)
    requires forall i :: 0 <= i < |was| ==> seg[i] == lut[was[i]]
    ensures IsBytes(seg) && TensorError(was, seg) == Error(p, r, |p.v|)
    ensures |r| == |p.v| ==> seg == was
  {
    HistogramError(cmap, was, seg);
    if |r| == |p.v| {
      forall i | 0 <= i < |was|
        ensures seg[i] == was[i]
      {
        CodesOccur(was, i);
        OccurringKept(h, p, r, lv, was[i] % 16);
        OccurringKept(h, p, r, lv, was[i] / 16);
        SameByte(cmap, was[i]);
      }
    }
  }
}
