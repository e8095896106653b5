/** The candidate blocks of one score row: the deterministic top-k over the row's valid prefix, fixed up in place, against
    the top-k over the full width with the -inf to -1 rule. */
module CandidateTopK {

  /** A score as the selection orders it: NaN above +inf, both zeros equal. */
  datatype Score = NegInf | Fin(v: real) | PosInf | NaN

  function Level(a: Score): nat { match a case NegInf => 0 case Fin(_) => 1 case PosInf => 2 case NaN => 3 }

  predicate Less(a: Score, b: Score) { Level(a) < Level(b) || (a.Fin? && b.Fin? && a.v < b.v) }

  /** Column i is taken before column j: the larger score, equal scores to the lower column. */
  predicate Before(s: seq<Score>, i: nat, j: nat)
    requires i < |s| && j < |s|
  {
    Less(s[j], s[i]) || (s[i] == s[j] && i < j)
  }

  lemma BeforeIsTotal(s: seq<Score>, i: nat, j: nat)
    requires i < |s| && j < |s|
    ensures i == j || Before(s, i, j) || Before(s, j, i)
    ensures !(Before(s, i, j) && Before(s, j, i)) && !Before(s, i, i)
  {
  }

  lemma BeforeChains(s: seq<Score>, i: nat, j: nat, l: nat)
    requires i < |s| && j < |s| && l < |s| && Before(s, i, j) && Before(s, j, l)
    ensures Before(s, i, l)
  {
  }

  /** Columns below n taken before i. */
  function Ahead(s: seq<Score>, n: nat, i: nat): set<nat>
    requires n <= |s| && i < |s|
  {
    set j: nat | j < n && Before(s, j, i)
  }

  /** The k columns taken first among the first n. */
  function TopK(s: seq<Score>, n: nat, k: nat): set<nat>
    requires n <= |s|
  {
    set i: nat | i < n && |Ahead(s, n, i)| < k
  }

  // ------------------------------------------------------------------ first and last of a set of columns

  ghost predicate Columns(s: seq<Score>, a: set<nat>) { forall i :: i in a ==> i < |s| }

  lemma {:induction false} FirstOf(s: seq<Score>, a: set<nat>) returns (e: nat)
    requires a != {} && Columns(s, a)
    ensures e in a && forall i :: i in a && i != e ==> Before(s, e, i)
    decreases |a|
  {
    var d :| d in a;
    var rest := a - {d};
    assert forall i :: i in a <==> i == d || i in rest;
    e := d;
    if rest != {} {
      var f := FirstOf(s, rest);
      BeforeIsTotal(s, d, f);
      if Before(s, f, d) {
        e := f;
      } else {
        forall i | i in rest && i != f
          ensures Before(s, d, i)
        {
          BeforeChains(s, d, f, i);
        }
      }
    }
  }

  lemma {:induction false} LastOf(s: seq<Score>, a: set<nat>) returns (e: nat)
    requires a != {} && Columns(s, a)
    ensures e in a && forall i :: i in a && i != e ==> Before(s, i, e)
    decreases |a|
  {
    var d :| d in a;
    var rest := a - {d};
    assert forall i :: i in a <==> i == d || i in rest;
    e := d;
    if rest != {} {
      var f := LastOf(s, rest);
      BeforeIsTotal(s, d, f);
      if Before(s, d, f) {
        e := f;
      } else {
        forall i | i in rest && i != f
          ensures Before(s, i, d)
        {
          BeforeChains(s, i, f, d);
        }
      }
    }
  }

  function Upto(n: nat): (a: set<nat>)
    ensures |a| == n && forall i: nat :: i in a <==> i < n
  {
    if n == 0 then {} else Upto(n - 1) + {n - 1}
  }

  lemma {:induction false} Size(a: set<nat>, b: set<nat>)
    requires a <= b
    ensures |a| <= |b|
  {
    assert b == a + (b - a);
  }

  /** Exactly k columns are selected, or all of them when there are fewer. */
  lemma TopKCount(s: seq<Score>, n: nat, k: nat)
    requires n <= |s|
    ensures |TopK(s, n, k)| == if k < n then k else n
  {
    var t, all := TopK(s, n, k), Upto(n);
    Size(t, all);
    if t != {} {
      var e := LastOf(s, t);
      Size(t - {e}, Ahead(s, n, e));
    }
    var rest := all - t;
    if rest != {} {
      var e := FirstOf(s, rest);
      forall j | j in Ahead(s, n, e)
        ensures j in t
      {
        BeforeIsTotal(s, e, j);
        assert j in all;
      }
      Size(Ahead(s, n, e), t);
    }
    assert rest == {} ==> t == all;
  }

  /** A column left out is not ahead of a selected one: NaN goes before +inf, +inf before the finite scores, those by size,
      -inf last, equal scores by column. */
  lemma SelectedAreLargest(s: seq<Score>, n: nat, k: nat, i: nat, j: nat)
    requires n <= |s| && i in TopK(s, n, k) && j < n && j !in TopK(s, n, k)
    ensures s[j].NaN? ==> s[i].NaN?
    ensures s[j].PosInf? ==> s[i].PosInf? || s[i].NaN?
    ensures s[i].Fin? && s[j].Fin? ==> s[i].v >= s[j].v
    ensures s[j].Fin? ==> !s[i].NegInf?
    ensures s[i] == s[j] ==> i < j
  {
    BeforeIsTotal(s, i, j);
    if Before(s, j, i) {
      forall l | l in Ahead(s, n, j)
        ensures l in Ahead(s, n, i)
      {
        BeforeChains(s, l, j, i);
      }
      Size(Ahead(s, n, j), Ahead(s, n, i));
    }
  }

  // ------------------------------------------------------------------ prefix against full width

  /** What the original publishes: the selected columns that are not -inf. */
  function Published(s: seq<Score>, n: nat, k: nat): set<nat>
    requires n <= |s|
  {
    set i | i in TopK(s, n, k) && s[i] != NegInf
  }

  /** A column of the prefix that the full width drops is behind a selected column of the tail. */
  lemma TailTakesPlace(s: seq<Score>, end: nat, k: nat, i: nat) returns (e: nat)
    requires end <= |s| && i in TopK(s, end, k) && i !in TopK(s, |s|, k)
    ensures end <= e < |s| && e in TopK(s, |s|, k) && Before(s, e, i)
  {
    var tail := Ahead(s, |s|, i) - Ahead(s, end, i);
    if Ahead(s, |s|, i) <= Ahead(s, end, i) {
      Size(Ahead(s, |s|, i), Ahead(s, end, i));
    }
    var w :| w in Ahead(s, |s|, i) && w !in Ahead(s, end, i);
    assert w in tail;
    e := FirstOf(s, tail);
    forall j | j in Ahead(s, |s|, e)
      ensures j in Ahead(s, end, i)
    {
      BeforeIsTotal(s, j, e);
      assert j in Ahead(s, |s|, i);
    }
    Size(Ahead(s, |s|, e), Ahead(s, end, i));
  }

  /** The prefix publishes what the full width publishes if and only if every column that the full width takes beyond the
      prefix is -inf. */
  lemma PrefixIsEnough(s: seq<Score>, end: nat, k: nat)
    requires end <= |s|
    ensures Published(s, end, k) == Published(s, |s|, k) <==> forall j :: end <= j < |s| && j in TopK(s, |s|, k) ==> s[j] == NegInf
  {
    forall i | i in Published(s, |s|, k) && i < end
      ensures i in Published(s, end, k)
    {
      Size(Ahead(s, end, i), Ahead(s, |s|, i));
    }
    if forall j :: end <= j < |s| && j in TopK(s, |s|, k) ==> s[j] == NegInf {
      forall i | i in Published(s, end, k)
        ensures i in Published(s, |s|, k)
      {
        if i !in TopK(s, |s|, k) {
          var e := TailTakesPlace(s, end, k, i);
          assert false;
        }
      }
    } else {
      var j: nat :| end <= j < |s| && j in TopK(s, |s|, k) && s[j] != NegInf;
      assert j in Published(s, |s|, k) && j !in Published(s, end, k);
    }
  }

  // ------------------------------------------------------------------ the row in place

  /** The blocks listed in an output row. */
  ghost function Listed(a: seq<int>): set<nat> { set c: nat | c in a }

  ghost predicate Ascending(a: seq<int>, n: nat)
    requires n <= |a|
  {
    forall c, d :: 0 <= c < d < n ==> 0 <= a[c] < a[d]
  }

  ghost function Part(s: seq<Score>, end: nat, k: nat, i: nat): set<nat>
    requires end <= |s|
  {
    set j | j in TopK(s, end, k) && j < i
  }

  lemma PartNext(s: seq<Score>, end: nat, k: nat, i: nat)
    requires i < end <= |s|
    ensures i in TopK(s, end, k) <==> |Ahead(s, end, i)| < k
    ensures Part(s, end, k, i + 1) == if i in TopK(s, end, k) then Part(s, end, k, i) + {i} else Part(s, end, k, i)
  {
  }

  lemma PartSize(s: seq<Score>, end: nat, k: nat, i: nat)
    requires end <= |s|
    ensures |Part(s, end, k, i)| <= k
  {
    TopKCount(s, end, k);
    Size(Part(s, end, k, i), TopK(s, end, k));
  }

  /** The first n elements of an output row are the columns of a, ascending and below i. */
  ghost predicate Holds(a: seq<int>, n: nat, cols: set<nat>, i: nat) {
    n <= |a| && Ascending(a, n) && (forall c :: 0 <= c < n ==> 0 <= a[c] < i) && Listed(a[..n]) == cols && |cols| == n
  }

  lemma HoldsNext(a: seq<int>, b: seq<int>, n: nat, cols: set<nat>, i: nat)
    requires Holds(a, n, cols, i) && n < |a| && b == a[n := i]
    ensures Holds(b, n + 1, cols + {i}, i + 1)
  {
    var row := a[..n];
    assert b[..n + 1] == row + [i];
    assert forall c :: c in row ==> c < i;
    assert Listed(row + [i]) == Listed(row) + {i};
  }

  /** The rest of the row after the selected columns. */
  ghost predicate Padded(a: seq<int>, n: nat, k: nat) { n <= k <= |a| && forall c :: n <= c < k ==> a[c] == -1 }

  lemma PartStart(s: seq<Score>, end: nat, k: nat, a: seq<int>)
    requires end <= |s|
    ensures Holds(a, 0, Part(s, end, k, 0), 0) && Part(s, end, k, end) == TopK(s, end, k)
  {
    assert Part(s, end, k, 0) == {} && Listed(a[..0]) == {};
  }

  method PutColumns(s: seq<Score>, end: nat, k: nat, out: array<int>) returns (n: nat)
    requires end <= |s| && k <= out.Length
    modifies out
    ensures n <= k && out[k..] == old(out[k..]) && Holds(out[..], n, TopK(s, end, k), end)
  {
    n := 0;
    PartStart(s, end, k, out[..]);
    for i := 0 to end
      invariant n <= k && out[k..] == old(out[k..])
      invariant Holds(out[..], n, Part(s, end, k, i), i)
    {
      PartNext(s, end, k, i);
      PartSize(s, end, k, i + 1);
      if |Ahead(s, end, i)| < k {
        HoldsNext(out[..], out[..][n := i], n, Part(s, end, k, i), i);
        out[n] := i;
        n := n + 1;
      } else {
        HoldsOn(out[..], n, Part(s, end, k, i), i);
      }
    }
  }

  lemma HoldsOn(a: seq<int>, n: nat, cols: set<nat>, i: nat)
    requires Holds(a, n, cols, i)
    ensures Holds(a, n, cols, i + 1)
  {
  }

  lemma HoldsPrefix(a: seq<int>, b: seq<int>, n: nat, cols: set<nat>, i: nat)
    requires Holds(a, n, cols, i) && n <= |b| && a[..n] == b[..n]
    ensures Holds(b, n, cols, i)
  {
    assert forall c :: 0 <= c < n ==> b[c] == b[..n][c] == a[c];
  }

  /** topk_prefill over columns [0, end): the selected columns ascending, then -1 up to k. */
  method TopkPrefill(s: seq<Score>, end: nat, k: nat, out: array<int>) returns (n: nat)
    requires end <= |s| && k <= out.Length
    modifies out
    ensures out[k..] == old(out[k..])
    ensures Holds(out[..], n, TopK(s, end, k), end) && Padded(out[..], n, k)
  {
    n := PutColumns(s, end, k, out);
    ghost var chosen := out[..];
    for c := n to k
      invariant out[k..] == old(out[k..])
      invariant out[..n] == chosen[..n] && Padded(out[..], n, c)
    {
      out[c] := -1;
    }
    HoldsPrefix(chosen, out[..], n, TopK(s, end, k), end);
  }

  /** _moet_candidates_fixup_kernel: a selected block stays unless its score is -inf; everything else becomes -1. */
  method Fixup(s: seq<Score>, out: array<int>, k: nat, width: nat)
    requires k <= width <= out.Length && forall c :: 0 <= c < k ==> out[c] < |s|
    modifies out
    ensures forall c :: 0 <= c < width ==>
      out[c] == if c < k && old(out[c]) >= 0 && s[old(out[c])] != NegInf then old(out[c]) else -1
    ensures out[width..] == old(out[width..])
  {
    for c := 0 to width
      invariant forall d :: 0 <= d < c ==>
        out[d] == if d < k && old(out[d]) >= 0 && s[old(out[d])] != NegInf then old(out[d]) else -1
      invariant forall d :: c <= d < out.Length ==> out[d] == old(out[d])
    {
      var block := if c < k then out[c] else -1;
      out[c] := if block >= 0 && s[block] != NegInf then block else -1;
    }
  }

  /** What is left of the row's blocks after the fix-up: each block once, the rest -1. */
  lemma FixedRow(s: seq<Score>, a: seq<int>, b: seq<int>, n: nat, k: nat, end: nat, width: nat)
    requires end <= |s| && k <= width <= |a| == |b| && Holds(a, n, TopK(s, end, k), end) && Padded(a, n, k)
    requires forall c :: 0 <= c < width ==> b[c] == if c < k && a[c] >= 0 && s[a[c]] != NegInf then a[c] else -1
    ensures forall c :: 0 <= c < width ==> b[c] == -1 || (0 <= b[c] && b[c] in Published(s, end, k))
    ensures forall i :: i in Published(s, end, k) ==> exists c :: 0 <= c < width && b[c] == i
    ensures forall c, d :: 0 <= c < d < width && b[c] == b[d] ==> b[c] == -1
  {
    forall c | 0 <= c < width && b[c] != -1
      ensures 0 <= b[c] && b[c] in Published(s, end, k)
    {
      assert a[c] in Listed(a[..n]) by {
        assert a[..n][c] == a[c];
      }
    }
    forall i | i in Published(s, end, k)
      ensures exists c :: 0 <= c < width && b[c] == i
    {
      assert i in Listed(a[..n]);
      var c :| 0 <= c < n && a[..n][c] == i;
      assert b[c] == i;
    }
  }

  /** What the first topk entries of an output row list. */
  ghost predicate Lists(a: seq<int>, topk: nat, i: nat)
    requires topk <= |a|
  {
    exists c :: 0 <= c < topk && a[c] == i
  }

  /** A row that lists each block once and has an entry left lists fewer than topk blocks. */
  lemma {:induction false} EntryLeft(a: seq<int>, topk: nat, c: nat, n: nat, blocks: set<nat>)
    requires n <= topk <= |a| && forall i :: i in blocks ==> exists d :: 0 <= d < n && a[d] == i
    ensures |blocks| <= n && (c < n && a[c] == -1 ==> |blocks| < n)
    decreases n
  {
    if n == 0 {
      assert blocks == {};
    } else {
      var last := a[n - 1];
      var rest := set i | i in blocks && i != last;
      forall i | i in rest
        ensures exists d :: 0 <= d < n - 1 && a[d] == i
      {
        var d :| 0 <= d < n && a[d] == i;
      }
      EntryLeft(a, topk, c, n - 1, rest);
      if last >= 0 && last in blocks {
        assert blocks == rest + {last};
      } else {
        assert blocks == rest;
      }
    }
  }

  /** The published blocks of a full row are the topk largest scores. */
  lemma AllOrTopk(s: seq<Score>, k: nat, j: nat)
    requires k <= |s| && j < |s| && s[j] != NegInf && j !in Published(s, |s|, k)
    ensures |Published(s, |s|, k)| == k < |s|
  {
    var t := TopK(s, |s|, k);
    forall i | i in t
      ensures s[i] != NegInf
    {
      SelectedAreLargest(s, |s|, k, i, j);
    }
    assert Published(s, |s|, k) == t;
    TopKCount(s, |s|, k);
    if k == |s| {
      Size(t + {j}, Upto(|s|));
    }
  }

  lemma ListedAreLargest(s: seq<Score>, k: nat, i: nat, j: nat)
    requires k <= |s| && i in Published(s, |s|, k) && j < |s| && j !in Published(s, |s|, k)
    ensures s[j].NaN? ==> s[i].NaN?
    ensures s[j].PosInf? ==> s[i].PosInf? || s[i].NaN?
    ensures s[i].Fin? && s[j].Fin? ==> s[i].v >= s[j].v
    ensures s[j].Fin? ==> !s[i].NegInf?
    ensures s[i] == s[j] ==> i < j
  {
    if j !in TopK(s, |s|, k) {
      SelectedAreLargest(s, |s|, k, i, j);
    }
  }

  /** select_candidate_blocks on one row: when the row is -inf beyond its valid blocks, the row lists, each once, exactly the
      blocks that the full-width selection publishes. Said of the scores: no listed block is -inf, every block not listed is
      behind each listed one, and as long as an entry is left every block that is not -inf is listed. */
  method Select(s: seq<Score>, end: nat, topk: nat, out: array<int>)
    requires end <= |s| && topk <= out.Length && forall j :: end <= j < |s| ==> s[j] == NegInf
    modifies out
    ensures var want := Published(s, |s|, if topk < |s| then topk else |s|);
      && (forall c :: 0 <= c < topk ==> out[c] == -1 || (0 <= out[c] && out[c] in want))
      && forall i :: i in want ==> Lists(out[..], topk, i)
    ensures forall c, d :: 0 <= c < d < topk && out[c] == out[d] ==> out[c] == -1
    ensures out[topk..] == old(out[topk..])
    ensures forall c :: 0 <= c < topk ==> -1 <= out[c] < |s| && (out[c] >= 0 ==> s[out[c]] != NegInf)
    ensures forall c, j {:trigger out[c], s[j]} :: 0 <= c < topk && out[c] >= 0 && 0 <= j < |s| && !Lists(out[..], topk, j) ==>
      && (s[j].NaN? ==> s[out[c]].NaN?)
      && (s[j].PosInf? ==> s[out[c]].PosInf? || s[out[c]].NaN?)
      && (s[out[c]].Fin? && s[j].Fin? ==> s[out[c]].v >= s[j].v)
      && (s[out[c]] == s[j] ==> out[c] < j)
    ensures forall c, j {:trigger out[c], s[j]} :: 0 <= c < topk && out[c] == -1 && 0 <= j < |s| && s[j] != NegInf ==> Lists(out[..], topk, j)
  {
    var k := if topk < |s| then topk else |s|;
    var n := TopkPrefill(s, end, k, out);
    ghost var picked := out[..];
    Fixup(s, out, k, topk);
    FixedRow(s, picked, out[..], n, k, end, topk);
    PrefixIsEnough(s, end, k);
    ghost var row := out[..];
    RowIsLargest(s, k, topk, row);
    assert forall c :: 0 <= c < topk ==> row[c] == out[c];
  }

  lemma RowIsLargest(s: seq<Score>, k: nat, topk: nat, a: seq<int>)
    requires topk <= |a| && k == if topk < |s| then topk else |s|
    requires forall c :: 0 <= c < topk ==> a[c] == -1 || (0 <= a[c] && a[c] in Published(s, |s|, k))
    requires forall i :: i in Published(s, |s|, k) ==> Lists(a, topk, i)
    ensures forall c, j {:trigger a[c], s[j]} :: 0 <= c < topk && a[c] >= 0 && 0 <= j < |s| && !Lists(a, topk, j) ==>
      && a[c] < |s| && (s[j].NaN? ==> s[a[c]].NaN?)
      && (s[j].PosInf? ==> s[a[c]].PosInf? || s[a[c]].NaN?)
      && (s[a[c]].Fin? && s[j].Fin? ==> s[a[c]].v >= s[j].v)
      && (s[a[c]] == s[j] ==> a[c] < j)
    ensures forall c, j {:trigger a[c], s[j]} :: 0 <= c < topk && a[c] == -1 && 0 <= j < |s| && s[j] != NegInf ==> Lists(a, topk, j)
  {
    forall c, j | 0 <= c < topk && a[c] >= 0 && 0 <= j < |s| && !Lists(a, topk, j)
      ensures a[c] < |s| && (s[j].NaN? ==> s[a[c]].NaN?) && (s[j].PosInf? ==> s[a[c]].PosInf? || s[a[c]].NaN?)
      ensures (s[a[c]].Fin? && s[j].Fin? ==> s[a[c]].v >= s[j].v) && (s[a[c]] == s[j] ==> a[c] < j)
    {
      ListedAreLargest(s, k, a[c], j);
    }
    forall c, j | 0 <= c < topk && a[c] == -1 && 0 <= j < |s| && s[j] != NegInf
      ensures Lists(a, topk, j)
    {
      if !Lists(a, topk, j) {
        AllOrTopk(s, k, j);
        EntryLeft(a, topk, c, topk, Published(s, |s|, k));
      }
    }
  }
}
