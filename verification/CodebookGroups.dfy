/** The per-group modes: one candidate code map per group of bytes, chosen by its histogram error; the odd-symmetric choice
    of a nearest level; and how far the per-tensor choice is from one among all representable values. */
module CodebookGroups {
  import opened CodebookDp
  import opened CodebookRemap

  // ------------------------------------------------------------------ odd-symmetric nearest level

  /** A level agrees with a code's sign bit; zero agrees with both. */
  predicate Agrees(c: nat, level: int) { level == 0 || (level < 0 <==> c >= 8) }

  predicate IsNearest(lv: seq<int>, c: nat, level: int)
    requires c < 16
  {
    level in lv && forall m :: m in lv ==> Abs(level - Val(c)) <= Abs(m - Val(c))
  }

  /** Among the nearest: sign agreement first, then the smaller magnitude. */
  predicate Preferred(c: nat, level: int, other: int) {
    if Agrees(c, level) == Agrees(c, other) then Abs(level) <= Abs(other) else Agrees(c, level)
  }

  predicate IsChoice(lv: seq<int>, c: nat, level: int)
    requires c < 16
  {
    IsNearest(lv, c, level) && forall m :: m in lv && IsNearest(lv, c, m) ==> Preferred(c, level, m)
  }

  /** The levels at a distance. */
  method AtDistance(lv: seq<int>, x: int, d: nat) returns (cand: seq<int>)
    ensures forall m :: m in cand <==> m in lv && Abs(m - x) == d
  {
    cand := [];
    for i := 0 to |lv|
      invariant forall m :: m in cand <==> m in lv[..i] && Abs(m - x) == d
    {
      if Abs(lv[i] - x) == d {
        cand := cand + [lv[i]];
      }
    }
    assert lv[..|lv|] == lv;
  }

  method Agreeing(cand: seq<int>, c: nat) returns (fit: seq<int>)
    ensures forall m :: m in fit <==> m in cand && Agrees(c, m)
  {
    fit := [];
    for i := 0 to |cand|
      invariant forall m :: m in fit <==> m in cand[..i] && Agrees(c, m)
    {
      if Agrees(c, cand[i]) {
        fit := fit + [cand[i]];
      }
    }
    assert cand[..|cand|] == cand;
  }

  lemma DistanceIsLeast(lv: seq<int>, x: int, m: int)
    requires |lv| > 0 && m in lv
    ensures Abs(lv[ArgNear(lv, x, |lv|)] - x) <= Abs(m - x)
  {
    var u :| 0 <= u < |lv| && lv[u] == m;
    ArgNearIsNearest(lv, x, |lv|, u);
  }

  /** _nearest_level: the distance minimum, the candidates at it, the sign filter when there are several, least magnitude. */
  method NearestLevel(lv: seq<int>, c: nat) returns (level: int)
    requires |lv| > 0 && c < 16
    ensures IsChoice(lv, c, level)
  {
    var x := Val(c);
    var a := Nearest(lv, x);
    var d := Abs(lv[a] - x);
    var cand := AtDistance(lv, x, d);
    assert lv[a] in cand;
    ghost var all := cand;
    if |cand| > 1 {
      var fit := Agreeing(cand, c);
      if fit != [] {
        cand := fit;
      } else {
        assert forall m :: m in cand ==> !Agrees(c, m);
      }
    }
    assert Filtered(c, all, cand);
    level := LeastMagnitude(cand);
    Chosen(lv, c, x, d, all, cand, level);
  }

  /** The final candidates: the agreeing ones, or all when there is one only or none agrees. */
  ghost predicate Filtered(c: nat, all: seq<int>, cand: seq<int>) {
    || (forall m :: m in cand <==> m in all && Agrees(c, m))
    || (cand == all && (|all| <= 1 || forall m :: m in all ==> !Agrees(c, m)))
  }

  lemma FilteredPreferred(c: nat, all: seq<int>, cand: seq<int>, level: int, m: int)
    requires Filtered(c, all, cand) && level in cand && (forall u :: u in cand ==> Abs(level) <= Abs(u)) && m in all
    ensures level in all && Preferred(c, level, m)
  {
    if cand == all && |all| <= 1 {
      assert all[0] == level && all[0] == m;
    }
  }

  lemma NearestAre(lv: seq<int>, c: nat, x: int, d: nat, m: int)
    requires |lv| > 0 && c < 16 && x == Val(c) && d == Abs(lv[ArgNear(lv, x, |lv|)] - x)
    ensures IsNearest(lv, c, m) <==> m in lv && Abs(m - x) == d
  {
    var best := lv[ArgNear(lv, x, |lv|)];
    forall u | u in lv
      ensures d <= Abs(u - x)
    {
      DistanceIsLeast(lv, x, u);
    }
    assert best in lv;
  }

  lemma Chosen(lv: seq<int>, c: nat, x: int, d: nat, all: seq<int>, cand: seq<int>, level: int)
    requires |lv| > 0 && c < 16 && x == Val(c) && d == Abs(lv[ArgNear(lv, x, |lv|)] - x)
    requires (forall m :: m in all <==> m in lv && Abs(m - x) == d) && Filtered(c, all, cand)
    requires level in cand && forall m :: m in cand ==> Abs(level) <= Abs(m)
    ensures IsChoice(lv, c, level)
  {
    FilteredPreferred(c, all, cand, level, level) by {
      assert level in all;
    }
    NearestAre(lv, c, x, d, level);
    forall m | m in lv && IsNearest(lv, c, m)
      ensures Preferred(c, level, m)
    {
      NearestAre(lv, c, x, d, m);
      FilteredPreferred(c, all, cand, level, m);
    }
  }

  /** min(cand, key=abs). */
  method LeastMagnitude(cand: seq<int>) returns (level: int)
    requires |cand| > 0
    ensures level in cand && forall m :: m in cand ==> Abs(level) <= Abs(m)
  {
    level := cand[0];
    for i := 1 to |cand|
      invariant level in cand && forall m :: m in cand[..i] ==> Abs(level) <= Abs(m)
    {
      if Abs(cand[i]) < Abs(level) {
        level := cand[i];
      }
    }
    assert cand[..|cand|] == cand;
  }

  function Negated(c: nat): (r: nat)
    requires c < 16
    ensures r < 16
  {
    if c < 8 then c + 8 else c - 8
  }

  lemma NegatedValue(c: nat)
    requires c < 16
    ensures Val(Negated(c)) == -Val(c) && (c >= 8 ==> Val(c) <= 0) && (c < 8 ==> Val(c) >= 0)
  {
  }

  predicate Symmetric(lv: seq<int>) { forall m :: m in lv ==> -m in lv }

  lemma MirrorNearest(lv: seq<int>, c: nat, level: int)
    requires c < 16 && Symmetric(lv) && IsNearest(lv, c, level)
    ensures IsNearest(lv, Negated(c), -level)
  {
    NegatedValue(c);
    forall m | m in lv
      ensures Abs(-level - Val(Negated(c))) <= Abs(m - Val(Negated(c)))
    {
      assert -m in lv;
      assert Abs(level - Val(c)) <= Abs(-m - Val(c));
    }
  }

  /** On a symmetric set of levels the choice is an odd function of the code: negating the code negates the level, for both
      zeros and for tied magnitudes too. */
  lemma ChoiceIsOdd(lv: seq<int>, c: nat, level: int, mirrored: int)
    requires c < 16 && Symmetric(lv) && IsChoice(lv, c, level) && IsChoice(lv, Negated(c), mirrored)
    ensures mirrored == -level
  {
    NegatedValue(c);
    NegatedValue(Negated(c));
    MirrorNearest(lv, c, level);
    MirrorNearest(lv, Negated(c), mirrored);
    assert Negated(Negated(c)) == c;
    assert Preferred(c, level, -mirrored) && Preferred(Negated(c), mirrored, -level);
  }

  /** On ascending levels the first argmin is the least of the nearest. */
  lemma FirstIsLeast(lv: seq<int>, c: nat, m: int)
    requires c < 16 && |lv| > 0 && (forall a, b :: 0 <= a < b < |lv| ==> lv[a] < lv[b]) && IsNearest(lv, c, m)
    ensures IsNearest(lv, c, Level(lv, c)) && Level(lv, c) <= m
  {
    var x, best := Val(c), ArgNear(lv, Val(c), |lv|);
    assert lv[best] in lv;
    forall u | u in lv
      ensures Abs(lv[best] - x) <= Abs(u - x)
    {
      DistanceIsLeast(lv, x, u);
    }
    var i :| 0 <= i < |lv| && lv[i] == m;
    ArgNearIsNearest(lv, x, |lv|, i);
    assert Abs(m - x) <= Abs(lv[best] - x);
  }

  lemma SomeNearest(lv: seq<int>, c: nat)
    requires c < 16 && |lv| > 0
    ensures IsNearest(lv, c, Level(lv, c))
  {
    var x := Val(c);
    assert Level(lv, c) in lv;
    forall u | u in lv
      ensures Abs(Level(lv, c) - x) <= Abs(u - x)
    {
      DistanceIsLeast(lv, x, u);
    }
  }

  /** The first-argmin choice of build_lut is odd in a code exactly when the code has only one nearest level. */
  lemma FirstArgminOddExactly(lv: seq<int>, c: nat)
    requires c < 16 && |lv| > 0 && Symmetric(lv) && forall a, b :: 0 <= a < b < |lv| ==> lv[a] < lv[b]
    ensures Level(lv, Negated(c)) == -Level(lv, c) <==> forall m, m2 :: IsNearest(lv, c, m) && IsNearest(lv, c, m2) ==> m == m2
  {
    var first, mirrored := Level(lv, c), Level(lv, Negated(c));
    SomeNearest(lv, c);
    SomeNearest(lv, Negated(c));
    MirrorNearest(lv, Negated(c), mirrored);
    assert Negated(Negated(c)) == c;
    forall m | IsNearest(lv, c, m)
      ensures first <= m <= -mirrored
    {
      FirstIsLeast(lv, c, m);
      MirrorNearest(lv, c, m);
      FirstIsLeast(lv, Negated(c), -m);
    }
  }

  /** Both zeros have two nearest levels in {-1.0, 1.0} and go to the same one. */
  lemma ZerosCollide(lv: seq<int>)
    requires lv == [-2, 2]
    ensures Symmetric(lv) && Level(lv, 0) == -2 && Level(lv, Negated(0)) == -2
  {
    assert ArgNear(lv, 0, 1) == 0;
    assert ArgNear(lv, 0, 2) == 0;
  }

  // ------------------------------------------------------------------ groups

  /** Candidate code maps with their squared changes per code. */
  predicate Tables(errs: seq<seq<nat>>, cmaps: seq<seq<nat>>) {
    |errs| == |cmaps| > 0 && forall i :: 0 <= i < |cmaps| ==> IsCodeMap(cmaps[i]) && errs[i] == Shifts(cmaps[i])
  }

  /** First argmin of the candidates' histogram errors. */
  method SelectMap(h: Hist, errs: seq<seq<nat>>, ghost cmaps: seq<seq<nat>>) returns (best: nat, sse: nat)
    requires Tables(errs, cmaps)
    ensures best < |errs| && sse == HistSum(h, Shifts(cmaps[best]), 16)
    ensures forall i :: 0 <= i < |errs| ==> sse <= HistSum(h, Shifts(cmaps[i]), 16)
  {
    best, sse := 0, HistSum(h, errs[0], 16);
    for i := 1 to |errs|
      invariant best < i && sse == HistSum(h, Shifts(cmaps[best]), 16)
      invariant forall u :: 0 <= u < i ==> sse <= HistSum(h, Shifts(cmaps[u]), 16)
    {
      var x := HistSum(h, errs[i], 16);
      if x < sse {
        best, sse := i, x;
      }
    }
  }

  lemma {:induction false} ErrorAppends(s: seq<nat>, s': seq<nat>, t: seq<nat>, t': seq<nat>)
    requires IsBytes(s) && IsBytes(s') && |s| == |s'| && IsBytes(t) && IsBytes(t') && |t| == |t'|
    ensures IsBytes(s + t) && IsBytes(s' + t') && TensorError(s + t, s' + t') == TensorError(s, s') + TensorError(t, t')
  {
    if t == [] {
      assert s + t == s && s' + t' == s';
    } else {
      var n := |t| - 1;
      assert (s + t)[..|s + t| - 1] == s + t[..n] && (s' + t')[..|s + t| - 1] == s' + t'[..n];
      ErrorAppends(s, s', t[..n], t'[..n]);
    }
  }

  /** now is was under the candidate map of least error for was. */
  ghost predicate BestRemap(was: seq<nat>, now: seq<nat>, cmaps: seq<seq<nat>>) {
    IsBytes(was) && |now| == |was| && exists b :: 0 <= b < |cmaps| && BestMap(was, now, cmaps, b)
  }

  ghost predicate BestMap(was: seq<nat>, now: seq<nat>, cmaps: seq<seq<nat>>, b: nat)
    requires IsBytes(was) && |now| == |was| && b < |cmaps|
  {
    && (forall i :: 0 <= i < |cmaps| ==> IsCodeMap(cmaps[i]))
    && (forall i :: 0 <= i < |was| ==> now[i] == Remapped(cmaps[b], was[i]))
    && forall i :: 0 <= i < |cmaps| ==> HistSum(CodeHist(was), Shifts(cmaps[b]), 16) <= HistSum(CodeHist(was), Shifts(cmaps[i]), 16)
  }

  /** Group g of bpg bytes is. */
  ghost predicate GroupBest(was: seq<nat>, now: seq<nat>, bpg: nat, g: nat, cmaps: seq<seq<nat>>) {
    g * bpg + bpg <= |was| == |now| && BestRemap(was[g * bpg..g * bpg + bpg], now[g * bpg..g * bpg + bpg], cmaps)
  }

  ghost predicate GroupsBest(was: seq<nat>, now: seq<nat>, bpg: nat, n: nat, cmaps: seq<seq<nat>>) {
    forall u :: 0 <= u < n ==> GroupBest(was, now, bpg, u, cmaps)
  }

  lemma GroupStays(was: seq<nat>, a: seq<nat>, b: seq<nat>, bpg: nat, g: nat, u: nat, cmaps: seq<seq<nat>>)
    requires GroupBest(was, a, bpg, u, cmaps) && u < g && |a| == |b| && g * bpg <= |a| && a[..g * bpg] == b[..g * bpg]
    ensures GroupBest(was, b, bpg, u, cmaps)
  {
    GroupRange(bpg, u, g);
    SliceStays(a, b, g * bpg, u * bpg, u * bpg + bpg);
  }

  lemma SliceStays(a: seq<nat>, b: seq<nat>, n: nat, lo: nat, hi: nat)
    requires lo <= hi <= n <= |a| && n <= |b| && a[..n] == b[..n]
    ensures a[lo..hi] == b[lo..hi]
  {
    forall i | lo <= i < hi
      ensures a[i] == b[i]
    {
      assert a[i] == a[..n][i] == b[..n][i];
    }
  }

  lemma GroupsNext(was: seq<nat>, a: seq<nat>, b: seq<nat>, bpg: nat, g: nat, cmaps: seq<seq<nat>>)
    requires GroupsBest(was, a, bpg, g, cmaps) && GroupBest(was, b, bpg, g, cmaps)
    requires |a| == |b| && g * bpg <= |a| && a[..g * bpg] == b[..g * bpg]
    ensures GroupsBest(was, b, bpg, g + 1, cmaps)
  {
    forall u | 0 <= u < g
      ensures GroupBest(was, b, bpg, u, cmaps)
    {
      GroupStays(was, a, b, bpg, g, u, cmaps);
    }
  }

  /** One group in place. */
  method RemapGroup(seg: array<nat>, lo: nat, hi: nat, errs: seq<seq<nat>>, cmaps: seq<seq<nat>>) returns (sse: nat)
    requires Tables(errs, cmaps) && lo <= hi <= seg.Length && IsBytes(seg[lo..hi])
    modifies seg
    ensures IsBytes(seg[lo..hi]) && sse == TensorError(old(seg[lo..hi]), seg[lo..hi])
    ensures BestRemap(old(seg[lo..hi]), seg[lo..hi], cmaps)
    ensures seg[..lo] == old(seg[..lo]) && seg[hi..] == old(seg[hi..])
  {
    ghost var was := seg[lo..hi];
    var h := Histogram(seg[lo..hi]);
    var b: nat;
    b, sse := SelectMap(h, errs, cmaps);
    RewriteRange(seg, lo, hi, cmaps[b]);
    HistogramError(cmaps[b], was, seg[lo..hi]);
    assert BestMap(was, seg[lo..hi], cmaps, b);
  }

  /** Bytes lo .. hi - 1 through a code map's table. */
  method RewriteRange(seg: array<nat>, lo: nat, hi: nat, cmap: seq<nat>)
    requires IsCodeMap(cmap) && lo <= hi <= seg.Length && IsBytes(seg[lo..hi])
    modifies seg
    ensures seg[..lo] == old(seg[..lo]) && seg[hi..] == old(seg[hi..])
    ensures forall i :: 0 <= i < hi - lo ==> seg[lo..hi][i] == Remapped(cmap, old(seg[lo..hi])[i])
  {
    ghost var was, all := seg[lo..hi], seg[..];
    assert forall i :: lo <= i < hi ==> was[i - lo] == seg[i];
    var lut := ByteLut(cmap);
    for i := lo to hi
      invariant forall u :: lo <= u < i ==> seg[u] == Remapped(cmap, was[u - lo])
      invariant forall u :: i <= u < hi ==> seg[u] == was[u - lo]
      invariant seg[..lo] == all[..lo] && seg[hi..] == all[hi..]
    {
      seg[i] := lut[seg[i]];
    }
    assert all[..lo] == old(seg[..lo]) && all[hi..] == old(seg[hi..]);
  }

  const IDENTITY: seq<nat> := [0, 1, 2, 3, 4, 5, 6, 7, 8, 9, 10, 11, 12, 13, 14, 15]

  lemma IdentityKeeps(cmap: seq<nat>, b: nat)
    requires cmap == IDENTITY && b < 256
    ensures IsCodeMap(cmap) && Remapped(cmap, b) == b
  {
    assert cmap[b % 16] == b % 16 && cmap[b / 16] == b / 16;
  }

  /** What the first n groups have become: with 15 levels or more every code has been rewritten to itself. */
  ghost predicate GroupsDone(was: seq<nat>, now: seq<nat>, bpg: nat, n: nat, k: nat, cmaps: seq<seq<nat>>, sse: nat) {
    if k >= 15 then now == was && sse == 0 else GroupsBest(was, now, bpg, n, cmaps)
  }

  /** _remap_groups: the sum of the groups' errors is the error really caused; with 15 levels or more there are no tables, and
      every byte is rewritten through the identity map. */
  method RemapGroups(seg: array<nat>, bpg: nat, groups: nat, k: nat, errs: seq<seq<nat>>, cmaps: seq<seq<nat>>) returns (sse: nat)
    requires (k < 15 ==> Tables(errs, cmaps)) && bpg > 0 && seg.Length == groups * bpg && IsBytes(seg[..])
    modifies seg
    ensures IsBytes(seg[..]) && sse == TensorError(old(seg[..]), seg[..])
    ensures if k >= 15 then seg[..] == old(seg[..]) && sse == 0 else GroupsBest(old(seg[..]), seg[..], bpg, groups, cmaps)
  {
    ghost var was := seg[..];
    sse := 0;
    for g := 0 to groups
      invariant RewrittenTo(was, seg[..], g * bpg, sse) && GroupsDone(was, seg[..], bpg, g, k, cmaps, sse)
    {
      if k >= 15 {
        KeepGroup(seg, g, bpg, groups, was);
      } else {
        sse := AddGroup(seg, g, bpg, groups, errs, cmaps, sse, was);
      }
    }
    assert seg[..][..groups * bpg] == seg[..] && was[..groups * bpg] == was;
  }

  /** One group through the identity map. */
  method KeepGroup(seg: array<nat>, g: nat, bpg: nat, groups: nat, ghost was: seq<nat>)
    requires g < groups && seg.Length == groups * bpg && seg[..] == was && IsBytes(was)
    modifies seg
    ensures seg[..] == was && RewrittenTo(was, seg[..], (g + 1) * bpg, 0)
  {
    var lo, hi := g * bpg, g * bpg + bpg;
    GroupRange(bpg, g, groups);
    assert seg[lo..hi] == was[lo..hi] && seg[..lo] == was[..lo] && seg[hi..] == was[hi..];
    IdentityKeeps(IDENTITY, 0);
    RewriteRange(seg, lo, hi, IDENTITY);
    forall i | 0 <= i < hi - lo
      ensures seg[lo..hi][i] == was[lo..hi][i]
    {
      IdentityKeeps(IDENTITY, was[lo..hi][i]);
    }
    Rejoined(seg[..], was, lo, hi);
    NoError(was[..hi]);
  }

  lemma Rejoined(a: seq<nat>, b: seq<nat>, lo: nat, hi: nat)
    requires lo <= hi <= |a| == |b| && a[..lo] == b[..lo] && a[hi..] == b[hi..] && a[lo..hi] == b[lo..hi]
    ensures a == b
  {
    assert a == a[..lo] + a[lo..hi] + a[hi..] && b == b[..lo] + b[lo..hi] + b[hi..];
  }

  /** The bytes before and after group g, by whole arrays. */
  method RemapAt(seg: array<nat>, lo: nat, hi: nat, errs: seq<seq<nat>>, cmaps: seq<seq<nat>>) returns (x: nat)
    requires Tables(errs, cmaps) && lo <= hi <= seg.Length && IsBytes(seg[..][lo..hi])
    modifies seg
    ensures seg[..][..lo] == old(seg[..])[..lo] && seg[..][hi..] == old(seg[..])[hi..] && IsBytes(seg[..][lo..hi])
    ensures BestRemap(old(seg[..])[lo..hi], seg[..][lo..hi], cmaps) && x == TensorError(old(seg[..])[lo..hi], seg[..][lo..hi])
  {
    ghost var was := seg[..];
    assert was[lo..hi] == seg[lo..hi] && was[..lo] == seg[..lo] && was[hi..] == seg[hi..];
    x := RemapGroup(seg, lo, hi, errs, cmaps);
    ghost var now := seg[..];
    assert now[lo..hi] == seg[lo..hi] && now[..lo] == seg[..lo] && now[hi..] == seg[hi..];
  }

  /** The first n bytes have been rewritten, and sse is the error caused. */
  ghost predicate RewrittenTo(was: seq<nat>, now: seq<nat>, n: nat, sse: nat) {
    n <= |was| == |now| && IsBytes(was) && IsBytes(now[..n]) && sse == TensorError(was[..n], now[..n]) && now[n..] == was[n..]
  }

  lemma RewrittenNext(was: seq<nat>, before: seq<nat>, now: seq<nat>, lo: nat, hi: nat, sse: nat, x: nat)
    requires RewrittenTo(was, before, lo, sse) && lo <= hi <= |now| == |was| && IsBytes(now[lo..hi]) && IsBytes(was[lo..hi])
    requires now[..lo] == before[..lo] && now[hi..] == before[hi..] && x == TensorError(was[lo..hi], now[lo..hi])
    ensures RewrittenTo(was, now, hi, sse + x)
  {
    Slices(before, was, lo, hi);
    GroupAdds(was, now, lo, hi);
  }

  method AddGroup(seg: array<nat>, g: nat, bpg: nat, groups: nat, errs: seq<seq<nat>>, cmaps: seq<seq<nat>>, sse: nat, ghost was: seq<nat>)
    returns (sse': nat)
    requires Tables(errs, cmaps) && g < groups && seg.Length == groups * bpg
    requires RewrittenTo(was, seg[..], g * bpg, sse) && GroupsBest(was, seg[..], bpg, g, cmaps)
    modifies seg
    ensures RewrittenTo(was, seg[..], (g + 1) * bpg, sse') && GroupsBest(was, seg[..], bpg, g + 1, cmaps)
  {
    var lo, hi := g * bpg, g * bpg + bpg;
    GroupRange(bpg, g, groups);
    ghost var before := seg[..];
    Slices(before, was, lo, hi);
    var x := RemapAt(seg, lo, hi, errs, cmaps);
    RewrittenNext(was, before, seg[..], lo, hi, sse, x);
    GroupsNext(was, before, seg[..], bpg, g, cmaps);
    sse' := sse + x;
  }

  lemma Slices(a: seq<nat>, b: seq<nat>, lo: nat, hi: nat)
    requires lo <= hi <= |a| == |b| && a[lo..] == b[lo..] && IsBytes(b)
    ensures a[lo..hi] == b[lo..hi] && a[hi..] == b[hi..] && IsBytes(b[lo..hi])
  {
    assert a[lo..][..hi - lo] == a[lo..hi] && b[lo..][..hi - lo] == b[lo..hi];
    assert a[lo..][hi - lo..] == a[hi..] && b[lo..][hi - lo..] == b[hi..];
  }

  lemma GroupRange(bpg: nat, g: nat, groups: nat)
    requires g < groups
    ensures (g + 1) * bpg == g * bpg + bpg <= groups * bpg
  {
  }

  lemma GroupAdds(was: seq<nat>, seg: seq<nat>, lo: nat, hi: nat)
    requires lo <= hi <= |was| == |seg| && IsBytes(was) && IsBytes(seg[..lo]) && IsBytes(seg[lo..hi])
    ensures IsBytes(seg[..hi]) && TensorError(was[..hi], seg[..hi]) == TensorError(was[..lo], seg[..lo]) + TensorError(was[lo..hi], seg[lo..hi])
  {
    assert seg[..hi] == seg[..lo] + seg[lo..hi] && was[..hi] == was[..lo] + was[lo..hi];
    ErrorAppends(was[..lo], seg[..lo], was[lo..hi], seg[lo..hi]);
  }

  lemma {:induction false} NoError(s: seq<nat>)
    requires IsBytes(s)
    ensures TensorError(s, s) == 0
  {
    if s != [] {
      NoError(s[..|s| - 1]);
    }
  }
}
