/** The candidate level sets of the per-group modes and their tables: with them every group is rewritten by the best of all
    K-element sets of representable values, and symmetric sets are applied as odd functions. */
module CodebookSubsets {
  import opened CodebookDp
  import opened CodebookRemap
  import opened CodebookGroups

  // ------------------------------------------------------------------ candidate sets

  /** k-element combinations of lo .. n - 1, in lexicographic order. */
  function Combinations(lo: nat, n: nat, k: nat): seq<seq<nat>>
    requires lo <= n
    decreases n - lo
  {
    if k == 0 then [[]] else if lo == n then []
    else Led(lo, Combinations(lo + 1, n, k - 1)) + Combinations(lo + 1, n, k)
  }

  function Led(x: nat, qs: seq<seq<nat>>): (r: seq<seq<nat>>)
    ensures |r| == |qs| && forall i :: 0 <= i < |r| ==> r[i] == [x] + qs[i]
  {
    if qs == [] then [] else Led(x, qs[..|qs| - 1]) + [[x] + qs[|qs| - 1]]
  }

  /** Strictly ascending, lo .. n - 1. */
  predicate Picks(q: seq<nat>, lo: nat, n: nat, k: nat) {
    |q| == k && (forall a :: 0 <= a < k ==> lo <= q[a] < n) && forall a, b :: 0 <= a < b < k ==> q[a] < q[b]
  }

  lemma PicksFirst(q: seq<nat>, lo: nat, n: nat, k: nat)
    requires k > 0 && lo < n
    ensures Picks(q, lo, n, k) <==> (|q| > 0 && q[0] == lo && Picks(q[1..], lo + 1, n, k - 1)) || Picks(q, lo + 1, n, k)
  {
    if Picks(q, lo, n, k) && q[0] != lo {
      assert forall a :: 0 <= a < k ==> q[0] <= q[a];
    }
    if |q| > 0 && q[0] == lo && Picks(q[1..], lo + 1, n, k - 1) {
      assert forall a :: 0 < a < |q| ==> q[a] == q[1..][a - 1];
    }
  }

  lemma LedHas(x: nat, qs: seq<seq<nat>>, q: seq<nat>)
    ensures q in Led(x, qs) <==> |q| > 0 && q[0] == x && q[1..] in qs
  {
    if q in Led(x, qs) {
      var i :| 0 <= i < |qs| && Led(x, qs)[i] == q;
      assert q[1..] == qs[i];
    }
    if |q| > 0 && q[0] == x && q[1..] in qs {
      var i :| 0 <= i < |qs| && qs[i] == q[1..];
      assert Led(x, qs)[i] == [x] + q[1..] == q;
    }
  }

  lemma OnlyEmpty(q: seq<nat>)
    ensures q in [[]] <==> q == []
  {
    var none: seq<seq<nat>> := [[]];
    assert none[0] == [];
  }

  lemma CombinationsStep(lo: nat, n: nat, k: nat, q: seq<nat>)
    requires lo < n && k > 0
    ensures q in Combinations(lo, n, k)
      <==> (|q| > 0 && q[0] == lo && q[1..] in Combinations(lo + 1, n, k - 1)) || q in Combinations(lo + 1, n, k)
  {
    LedHas(lo, Combinations(lo + 1, n, k - 1), q);
  }

  lemma StepAgrees(lo: nat, n: nat, k: nat, q: seq<nat>)
    requires lo < n && k > 0 && (q in Combinations(lo + 1, n, k) <==> Picks(q, lo + 1, n, k))
    requires |q| > 0 ==> (q[1..] in Combinations(lo + 1, n, k - 1) <==> Picks(q[1..], lo + 1, n, k - 1))
    ensures q in Combinations(lo, n, k) <==> Picks(q, lo, n, k)
  {
    CombinationsStep(lo, n, k, q);
    PicksFirst(q, lo, n, k);
  }

  lemma NothingToPick(q: seq<nat>, n: nat, k: nat)
    requires k > 0
    ensures !Picks(q, n, n, k)
  {
    if |q| > 0 {
      assert !(n <= q[0] < n);
    }
  }

  /** The combinations are exactly the k-element subsets. */
  lemma {:induction false} CombinationsComplete(lo: nat, n: nat, k: nat, q: seq<nat>)
    requires lo <= n
    ensures q in Combinations(lo, n, k) <==> Picks(q, lo, n, k)
    decreases n - lo
  {
    if k == 0 {
      OnlyEmpty(q);
    } else if lo == n {
      NothingToPick(q, n, k);
    } else {
      if |q| > 0 {
        CombinationsComplete(lo + 1, n, k - 1, q[1..]);
      }
      CombinationsComplete(lo + 1, n, k, q);
      StepAgrees(lo, n, k, q);
    }
  }

  function GridIndex(level: int): (g: nat)
    requires level in GRID
    ensures g < 15 && GRID[g] == level
  {
    if level == -12 then 0 else if level == -8 then 1 else if level == -6 then 2 else if level < 0 then 7 + level
    else if level <= 4 then 7 + level else if level == 6 then 12 else if level == 8 then 13 else 14
  }

  /** The grid values at some places. */
  function At(q: seq<nat>): (lv: seq<int>)
    requires forall a :: 0 <= a < |q| ==> q[a] < 15
    ensures |lv| == |q| && forall a :: 0 <= a < |q| ==> lv[a] == GRID[q[a]]
  {
    seq(|q|, a requires 0 <= a < |q| => GRID[q[a]])
  }

  lemma PicksAreSubsets(q: seq<nat>, k: nat)
    requires k > 0 && Picks(q, 0, 15, k)
    ensures Subset(At(q), k)
  {
    var lv := At(q);
    forall a, b | 0 <= a < b < k
      ensures lv[a] < lv[b]
    {
      GridAscends(q[a], q[b]);
    }
  }

  lemma SubsetsArePicks(lv: seq<int>, k: nat) returns (q: seq<nat>)
    requires Subset(lv, k)
    ensures Picks(q, 0, 15, k) && At(q) == lv
  {
    q := seq(|lv|, a requires 0 <= a < |lv| => GridIndex(lv[a]));
    forall a, b | 0 <= a < b < k
      ensures q[a] < q[b]
    {
      if q[b] < q[a] {
        GridAscends(q[b], q[a]);
      }
    }
  }

  /** sets holds every k-element set of representable values and nothing else. */
  ghost predicate AllSubsets(sets: seq<seq<int>>, k: nat) { forall lv :: lv in sets <==> Subset(lv, k) }

  /** _candidate_level_sets without the symmetry constraint. */
  method CandidateSets(k: nat) returns (sets: seq<seq<int>>)
    requires k > 0
    ensures AllSubsets(sets, k)
  {
    var lo: nat, n: nat := 0, |GRID|;
    var picks := Combinations(lo, n, k);
    forall q
      ensures q in picks <==> Picks(q, 0, 15, k)
    {
      CombinationsComplete(lo, n, k, q);
    }
    sets := LevelSets(picks, k);
    AreAllSubsets(picks, sets, k);
  }

  /** The combinations of places as level sets. */
  method LevelSets(picks: seq<seq<nat>>, ghost k: nat) returns (sets: seq<seq<int>>)
    requires forall q :: q in picks ==> Picks(q, 0, 15, k)
    ensures |sets| == |picks| && forall j :: 0 <= j < |picks| ==> Picks(picks[j], 0, 15, k) && sets[j] == At(picks[j])
  {
    sets := [];
    for i := 0 to |picks|
      invariant |sets| == i && forall j :: 0 <= j < i ==> Picks(picks[j], 0, 15, k) && sets[j] == At(picks[j])
    {
      assert picks[i] in picks;
      sets := sets + [At(picks[i])];
    }
  }

  lemma AreAllSubsets(picks: seq<seq<nat>>, sets: seq<seq<int>>, k: nat)
    requires k > 0 && forall q :: q in picks <==> Picks(q, 0, 15, k)
    requires |sets| == |picks| && forall j :: 0 <= j < |picks| ==> Picks(picks[j], 0, 15, k) && sets[j] == At(picks[j])
    ensures AllSubsets(sets, k)
  {
    forall lv | Subset(lv, k)
      ensures lv in sets
    {
      var q := SubsetsArePicks(lv, k);
      assert q in picks;
      var i :| 0 <= i < |picks| && picks[i] == q;
      assert sets[i] == lv;
    }
    forall lv | lv in sets
      ensures Subset(lv, k)
    {
      var i :| 0 <= i < |sets| && sets[i] == lv;
      PicksAreSubsets(picks[i], k);
    }
  }

  const MAGNITUDES: seq<int> := [1, 2, 3, 4, 6, 8, 12]

  /** A pair of mirror pairs. */
  ghost predicate MirrorPairs(lv: seq<int>) {
    exists i, j :: 0 <= i < j < |MAGNITUDES| && lv == [-MAGNITUDES[j], -MAGNITUDES[i], MAGNITUDES[i], MAGNITUDES[j]]
  }

  lemma MagnitudeOnGrid(i: nat)
    requires i < |MAGNITUDES|
    ensures MAGNITUDES[i] > 0 && MAGNITUDES[i] in GRID && -MAGNITUDES[i] in GRID
  {
    assert GRID[8 + i] == MAGNITUDES[i] && GRID[6 - i] == -MAGNITUDES[i];
  }

  lemma MagnitudesAscend(i: nat, j: nat)
    requires i < j < |MAGNITUDES|
    ensures MAGNITUDES[i] < MAGNITUDES[j]
  {
    assert GRID[8 + i] == MAGNITUDES[i] && GRID[8 + j] == MAGNITUDES[j];
    GridAscends(8 + i, 8 + j);
  }

  lemma PairsMirror(lv: seq<int>, a: int, b: int)
    requires lv == [-b, -a, a, b]
    ensures Symmetric(lv)
  {
    forall m | m in lv
      ensures -m in lv
    {
      assert lv[0] == -b && lv[1] == -a && lv[2] == a && lv[3] == b;
      assert m == lv[0] || m == lv[1] || m == lv[2] || m == lv[3];
    }
  }

  lemma PairsAscend(lv: seq<int>, a: int, b: int)
    requires 0 < a < b && lv == [-b, -a, a, b]
    ensures forall i, j :: 0 <= i < j < |lv| ==> lv[i] < lv[j]
  {
  }

  lemma PairsOnGrid(lv: seq<int>, a: int, b: int)
    requires a in GRID && -a in GRID && b in GRID && -b in GRID && lv == [-b, -a, a, b]
    ensures AreLevels(lv)
  {
    forall i | 0 <= i < |lv|
      ensures lv[i] in GRID
    {
      assert lv[i] == -b || lv[i] == -a || lv[i] == a || lv[i] == b;
    }
  }

  lemma PairsOf(lv: seq<int>, a: int, b: int)
    requires 0 < a < b && a in GRID && -a in GRID && b in GRID && -b in GRID && lv == [-b, -a, a, b]
    ensures Symmetric(lv) && Subset(lv, 4)
  {
    PairsMirror(lv, a, b);
    PairsAscend(lv, a, b);
    PairsOnGrid(lv, a, b);
  }

  lemma MirrorPairsAreSymmetric(lv: seq<int>)
    requires MirrorPairs(lv)
    ensures Symmetric(lv) && Subset(lv, 4)
  {
    var i, j :| 0 <= i < j < |MAGNITUDES| && lv == [-MAGNITUDES[j], -MAGNITUDES[i], MAGNITUDES[i], MAGNITUDES[j]];
    MagnitudeOnGrid(i);
    MagnitudeOnGrid(j);
    MagnitudesAscend(i, j);
    PairsOf(lv, MAGNITUDES[i], MAGNITUDES[j]);
  }

  /** _candidate_level_sets for K = 4 with the symmetry constraint. */
  method SymmetricSets() returns (sets: seq<seq<int>>)
    ensures forall lv :: lv in sets <==> MirrorPairs(lv)
    ensures forall lv :: lv in sets ==> Symmetric(lv) && Subset(lv, 4)
  {
    sets := [];
    for i := 0 to |MAGNITUDES|
      invariant forall lv :: lv in sets <==> PairsUpTo(lv, i, 0)
    {
      for j := i + 1 to |MAGNITUDES|
        invariant forall lv :: lv in sets <==> PairsUpTo(lv, i, j)
      {
        sets := sets + [[-MAGNITUDES[j], -MAGNITUDES[i], MAGNITUDES[i], MAGNITUDES[j]]];
      }
    }
    forall lv | lv in sets
      ensures Symmetric(lv) && Subset(lv, 4)
    {
      MirrorPairsAreSymmetric(lv);
    }
  }

  /** Pairs with the first before n, or at n with the second before m. */
  ghost predicate PairsUpTo(lv: seq<int>, n: nat, m: nat) {
    exists i, j :: 0 <= i < j < |MAGNITUDES| && (i < n || (i == n && j < m)) && lv == [-MAGNITUDES[j], -MAGNITUDES[i], MAGNITUDES[i], MAGNITUDES[j]]
  }

  // ------------------------------------------------------------------ their tables

  /** The code of the odd-symmetric nearest level of c. */
  ghost predicate Chooses(lv: seq<int>, c: nat, code: nat)
    requires c < 16
  {
    exists level :: IsChoice(lv, c, level) && level in GRID && code == CodeOf(level, c)
  }

  /** A set's codes and squared changes. */
  ghost predicate TableOf(lv: seq<int>, err: seq<nat>, cmap: seq<nat>) {
    AreLevels(lv) && IsCodeMap(cmap) && err == Shifts(cmap) && forall c: nat :: c < 16 ==> Chooses(lv, c, cmap[c])
  }

  ghost predicate Entry(lv: seq<int>, c: nat, d: nat, code: nat)
    requires c < 16
  {
    code < 16 && Chooses(lv, c, code) && d == Sq(Val(c) - Val(code))
  }

  /** One entry. */
  method SetEntry(lv: seq<int>, c: nat) returns (d: nat, code: nat)
    requires AreLevels(lv) && c < 16
    ensures Entry(lv, c, d, code)
  {
    var level := NearestLevel(lv, c);
    d, code := Sq(Val(c) - level), CodeOf(level, c);
  }

  lemma EntriesAreTable(lv: seq<int>, err: seq<nat>, cmap: seq<nat>)
    requires AreLevels(lv) && |err| == |cmap| == 16 && forall i :: 0 <= i < 16 ==> Entry(lv, i, err[i], cmap[i])
    ensures TableOf(lv, err, cmap)
  {
    assert forall i :: 0 <= i < 16 ==> Entry(lv, i, err[i], cmap[i]) ==> cmap[i] < 16;
    assert err == Shifts(cmap);
  }

  /** One row of _subset_tables. */
  method SetTable(lv: seq<int>) returns (err: seq<nat>, cmap: seq<nat>)
    requires AreLevels(lv)
    ensures TableOf(lv, err, cmap)
  {
    err, cmap := [], [];
    for c := 0 to 16
      invariant |err| == |cmap| == c && forall i :: 0 <= i < c ==> Entry(lv, i, err[i], cmap[i])
    {
      var d, code := SetEntry(lv, c);
      err, cmap := err + [d], cmap + [code];
    }
    EntriesAreTable(lv, err, cmap);
  }

  /** _subset_tables. */
  method SubsetTables(sets: seq<seq<int>>) returns (errs: seq<seq<nat>>, cmaps: seq<seq<nat>>)
    requires forall i :: 0 <= i < |sets| ==> AreLevels(sets[i])
    ensures |errs| == |cmaps| == |sets| && forall i :: 0 <= i < |sets| ==> TableOf(sets[i], errs[i], cmaps[i])
  {
    errs, cmaps := [], [];
    for i := 0 to |sets|
      invariant |errs| == |cmaps| == i && forall j :: 0 <= j < i ==> TableOf(sets[j], errs[j], cmaps[j])
    {
      var err, cmap := SetTable(sets[i]);
      errs, cmaps := errs + [err], cmaps + [cmap];
    }
  }

  lemma NearestShift(lv: seq<int>, c: nat, level: int)
    requires |lv| > 0 && c < 16 && IsNearest(lv, c, level)
    ensures Sq(Val(c) - level) == Sq(Val(c) - Level(lv, c))
  {
    SomeNearest(lv, c);
    SameDistance(Val(c), level, Level(lv, c));
  }

  lemma LevelShift(lv: seq<int>, c: nat)
    requires AreLevels(lv) && c < 16
    ensures Shifts(CodeMap(lv))[c] == Sq(Val(c) - Level(lv, c))
  {
    MappedValue(lv, c, Val(c));
  }

  lemma ChosenLevel(lv: seq<int>, c: nat, code: nat) returns (level: int)
    requires c < 16 && code < 16 && Chooses(lv, c, code)
    ensures IsNearest(lv, c, level) && Val(code) == level
  {
    level :| IsChoice(lv, c, level) && level in GRID && code == CodeOf(level, c);
  }

  lemma ChosenShift(lv: seq<int>, c: nat, code: nat)
    requires AreLevels(lv) && c < 16 && code < 16 && Chooses(lv, c, code)
    ensures Sq(Val(c) - Val(code)) == Shifts(CodeMap(lv))[c]
  {
    var level := ChosenLevel(lv, c, code);
    NearestShift(lv, c, level);
    LevelShift(lv, c);
  }

  /** Ties do not affect the squared changes: they are those of the first-argmin map of the same levels. */
  lemma TableShifts(lv: seq<int>, err: seq<nat>, cmap: seq<nat>)
    requires TableOf(lv, err, cmap)
    ensures err == Shifts(CodeMap(lv))
  {
    var f := Shifts(CodeMap(lv));
    forall c: nat | c < 16
      ensures err[c] == f[c]
    {
      ShiftAt(cmap, c, cmap[c]);
      ChosenShift(lv, c, cmap[c]);
    }
    assert err == f;
  }

  lemma SameDistance(x: int, a: int, b: int)
    requires Abs(a - x) <= Abs(b - x) && Abs(b - x) <= Abs(a - x)
    ensures Sq(x - a) == Sq(x - b)
  {
    AbsSq(a - x, b - x);
    AbsSq(b - x, a - x);
    SqFlip(a - x);
    SqFlip(b - x);
  }

  /** On a symmetric set the remap is an odd function of the value, both zeros included. */
  lemma TableIsOdd(lv: seq<int>, err: seq<nat>, cmap: seq<nat>, c: nat)
    requires TableOf(lv, err, cmap) && Symmetric(lv) && c < 16
    ensures Val(cmap[Negated(c)]) == -Val(cmap[c])
  {
    assert Chooses(lv, c, cmap[c]) && Chooses(lv, Negated(c), cmap[Negated(c)]);
    var level :| IsChoice(lv, c, level) && level in GRID && cmap[c] == CodeOf(level, c);
    var mirrored :| IsChoice(lv, Negated(c), mirrored) && mirrored in GRID && cmap[Negated(c)] == CodeOf(mirrored, Negated(c));
    ChoiceIsOdd(lv, c, level, mirrored);
  }

  /** Tables of all k-element sets rewrite a group at the least error any such set can have. */
  lemma GroupIsOptimal(was: seq<nat>, now: seq<nat>, sets: seq<seq<int>>, errs: seq<seq<nat>>, cmaps: seq<seq<nat>>, k: nat, lv: seq<int>)
    requires AllSubsets(sets, k) && |errs| == |cmaps| == |sets| && (forall i :: 0 <= i < |sets| ==> TableOf(sets[i], errs[i], cmaps[i]))
    requires IsBytes(was) && IsBytes(now) && BestRemap(was, now, cmaps) && Subset(lv, k)
    ensures TensorError(was, now) <= HistSum(CodeHist(was), Shifts(CodeMap(lv)), 16)
  {
    var b :| 0 <= b < |cmaps| && BestMap(was, now, cmaps, b);
    HistogramError(cmaps[b], was, now);
    assert lv in sets;
    var i :| 0 <= i < |sets| && sets[i] == lv;
    TableShifts(lv, errs[i], cmaps[i]);
  }
}
