/** The order in which a frame's promotion candidates are considered: as captured, hottest first, or one per layer per
    round. */
module DeltaOrder {

  datatype Pair = Pair(layer: nat, expert: nat)

  datatype Order = Sorted | Hottest | RoundRobin

  /** A counter's value: 0 for a key it has not seen. */
  function Get<K>(m: map<K, nat>, k: K): nat { if k in m then m[k] else 0 }

  ghost predicate Distinct<T(!new)>(s: seq<T>) { forall i, j :: 0 <= i < j < |s| ==> s[i] != s[j] }

  // ------------------------------------------------------------------ permutations

  lemma {:induction false} DistinctCounts(s: seq<Pair>, p: Pair)
    requires Distinct(s)
    ensures multiset(s)[p] <= 1
  {
    if s != [] {
      var t, q := s[..|s| - 1], s[|s| - 1];
      assert s == t + [q];
      DistinctCounts(t, p);
      if p == q {
        assert p !in t;
      }
    }
  }

  lemma CountsDistinct(s: seq<Pair>)
    requires forall p :: multiset(s)[p] <= 1
    ensures Distinct(s)
  {
    forall i, j | 0 <= i < j < |s|
      ensures s[i] != s[j]
    {
      var t, u := s[..j], s[j..];
      assert s == t + u;
      assert t[i] == s[i] && u[0] == s[j];
      assert multiset(t)[s[i]] >= 1 && multiset(u)[s[j]] >= 1;
      assert multiset(s)[s[i]] == multiset(t)[s[i]] + multiset(u)[s[i]];
    }
  }

  lemma PermutedIsDistinct(s: seq<Pair>, t: seq<Pair>)
    requires Distinct(s) && multiset(t) == multiset(s)
    ensures Distinct(t)
  {
    forall p
      ensures multiset(t)[p] <= 1
    {
      DistinctCounts(s, p);
    }
    CountsDistinct(t);
  }

  // ------------------------------------------------------------------ hottest first

  ghost predicate Descending(s: seq<Pair>, freq: map<Pair, nat>) {
    forall i, j :: 0 <= i < j < |s| ==> Get(freq, s[i]) >= Get(freq, s[j])
  }

  /** The elements of s with frequency f, in order. */
  ghost function WithFreq(s: seq<Pair>, freq: map<Pair, nat>, f: nat): seq<Pair> {
    if s == [] then [] else WithFreq(s[..|s| - 1], freq, f) + if Get(freq, s[|s| - 1]) == f then [s[|s| - 1]] else []
  }

  /** p placed behind every element at least as hot. */
  function Insert(s: seq<Pair>, p: Pair, freq: map<Pair, nat>): (t: seq<Pair>)
    ensures multiset(t) == multiset(s) + multiset{p}
  {
    if s == [] || Get(freq, s[|s| - 1]) >= Get(freq, p) then s + [p]
    else
      assert s == s[..|s| - 1] + [s[|s| - 1]];
      Insert(s[..|s| - 1], p, freq) + [s[|s| - 1]]
  }

  /** sorted(cands, key = -freq): a stable sort. */
  function StableSort(s: seq<Pair>, freq: map<Pair, nat>): (t: seq<Pair>)
    ensures multiset(t) == multiset(s)
  {
    if s == [] then []
    else
      assert s == s[..|s| - 1] + [s[|s| - 1]];
      Insert(StableSort(s[..|s| - 1], freq), s[|s| - 1], freq)
  }

  lemma {:induction false} InsertDescends(s: seq<Pair>, p: Pair, freq: map<Pair, nat>)
    requires Descending(s, freq)
    ensures Descending(Insert(s, p, freq), freq)
  {
    if s != [] && Get(freq, s[|s| - 1]) < Get(freq, p) {
      var t := s[..|s| - 1];
      InsertDescends(t, p, freq);
      var u := Insert(t, p, freq);
      forall i | 0 <= i < |u|
        ensures Get(freq, u[i]) >= Get(freq, s[|s| - 1])
      {
        assert u[i] in multiset(u);
        assert u[i] in multiset(t) || u[i] == p;
      }
    }
  }

  lemma WithFreqNext(s: seq<Pair>, p: Pair, freq: map<Pair, nat>, f: nat)
    ensures WithFreq(s + [p], freq, f) == WithFreq(s, freq, f) + if Get(freq, p) == f then [p] else []
  {
    assert (s + [p])[..|s|] == s;
  }

  lemma {:induction false} InsertStable(s: seq<Pair>, p: Pair, freq: map<Pair, nat>, f: nat)
    ensures WithFreq(Insert(s, p, freq), freq, f) == WithFreq(s, freq, f) + if Get(freq, p) == f then [p] else []
  {
    if s == [] || Get(freq, s[|s| - 1]) >= Get(freq, p) {
      WithFreqNext(s, p, freq, f);
    } else {
      var t, q := s[..|s| - 1], s[|s| - 1];
      InsertStable(t, p, freq, f);
      WithFreqNext(Insert(t, p, freq), q, freq, f);
    }
  }

  /** Hottest first, and candidates equally hot keep their captured order. */
  lemma {:induction false} SortIsStable(s: seq<Pair>, freq: map<Pair, nat>, f: nat)
    ensures Descending(StableSort(s, freq), freq)
    ensures WithFreq(StableSort(s, freq), freq, f) == WithFreq(s, freq, f)
  {
    if s != [] {
      var t, q := s[..|s| - 1], s[|s| - 1];
      SortIsStable(t, freq, f);
      var u := StableSort(t, freq);
      InsertDescends(u, q, freq);
      InsertStable(u, q, freq, f);
    }
  }

  // ------------------------------------------------------------------ one per layer per round

  /** The elements of s in a layer, in order. */
  ghost function OfLayer(s: seq<Pair>, l: nat): seq<Pair> {
    if s == [] then [] else OfLayer(s[..|s| - 1], l) + if s[|s| - 1].layer == l then [s[|s| - 1]] else []
  }

  ghost function Count(s: seq<Pair>, l: nat): nat { |OfLayer(s, l)| }

  /** The layers of s, in order of first appearance. */
  ghost function Firsts(s: seq<Pair>): seq<nat> {
    if s == [] then []
    else var f, l := Firsts(s[..|s| - 1]), s[|s| - 1].layer; if l in f then f else f + [l]
  }

  lemma OfLayerNext(s: seq<Pair>, p: Pair, l: nat)
    ensures OfLayer(s + [p], l) == OfLayer(s, l) + if p.layer == l then [p] else []
  {
    assert (s + [p])[..|s|] == s;
  }

  lemma {:induction false} OfLayerIs(s: seq<Pair>, l: nat)
    ensures forall p :: p in OfLayer(s, l) ==> p.layer == l
    ensures Count(s, l) <= |s|
  {
    if s != [] {
      OfLayerIs(s[..|s| - 1], l);
    }
  }

  lemma {:induction false} FirstsComplete(s: seq<Pair>, l: nat)
    ensures l in Firsts(s) <==> OfLayer(s, l) != []
  {
    if s != [] {
      FirstsComplete(s[..|s| - 1], l);
    }
  }

  lemma {:induction false} CountByLayer(s: seq<Pair>, p: Pair)
    ensures multiset(s)[p] == multiset(OfLayer(s, p.layer))[p]
  {
    if s != [] {
      var t, q := s[..|s| - 1], s[|s| - 1];
      assert s == t + [q];
      CountByLayer(t, p);
    }
  }

  /** Two sequences that agree layer by layer are permutations of each other. */
  lemma LayersPermute(s: seq<Pair>, t: seq<Pair>)
    requires forall l :: OfLayer(s, l) == OfLayer(t, l)
    ensures multiset(s) == multiset(t)
  {
    forall p
      ensures multiset(s)[p] == multiset(t)[p]
    {
      CountByLayer(s, p);
      CountByLayer(t, p);
      assert OfLayer(s, p.layer) == OfLayer(t, p.layer);
    }
  }

  /** Layer i, which comes first before layer j, is at most one candidate ahead of it and never behind, unless the one that
      is behind has no candidate left. */
  ghost predicate Fair(s: seq<Pair>, cands: seq<Pair>, layers: seq<nat>) {
    forall i, j :: 0 <= i < j < |layers| ==> FairPair(s, cands, layers[i], layers[j])
  }

  ghost predicate FairPair(s: seq<Pair>, cands: seq<Pair>, a: nat, b: nat) {
    && (Count(s, b) <= Count(s, a) || Count(s, a) == Count(cands, a))
    && (Count(s, a) <= Count(s, b) + 1 || Count(s, b) == Count(cands, b))
  }

  /** Every prefix is fair. */
  ghost predicate AllFair(s: seq<Pair>, cands: seq<Pair>, layers: seq<nat>) { forall n :: 0 <= n <= |s| ==> Fair(s[..n], cands, layers) }

  function Lesser(x: nat, y: nat): nat { if x < y then x else y }

  /** k rounds are complete and round k + 1 has passed the first i layers. */
  ghost predicate InRound(s: seq<Pair>, cands: seq<Pair>, layers: seq<nat>, k: nat, i: nat) {
    forall j :: 0 <= j < |layers| ==> Count(s, layers[j]) == Lesser(if j < i then k + 1 else k, Count(cands, layers[j]))
  }

  lemma InRoundIsFair(s: seq<Pair>, cands: seq<Pair>, layers: seq<nat>, k: nat, i: nat)
    requires InRound(s, cands, layers, k, i)
    ensures Fair(s, cands, layers)
  {
  }

  /** What is left of each layer's list, and what has been taken. */
  ghost predicate Taken(s: seq<Pair>, cands: seq<Pair>, lists: map<nat, seq<Pair>>, layers: seq<nat>) {
    forall l: nat ::
      && Count(s, l) <= Count(cands, l) && OfLayer(s, l) == OfLayer(cands, l)[..Count(s, l)]
      && (l in layers <==> l in lists) && (l in lists ==> lists[l] == OfLayer(cands, l)[Count(s, l)..])
  }

  /** lists: the candidates of each layer, and its keys in order. */
  method Split(cands: seq<Pair>) returns (lists: map<nat, seq<Pair>>, layers: seq<nat>)
    ensures layers == Firsts(cands) && Distinct(layers)
    ensures forall l :: (l in layers <==> l in lists) && (l in lists ==> lists[l] == OfLayer(cands, l))
  {
    lists, layers := map[], [];
    for i := 0 to |cands|
      invariant layers == Firsts(cands[..i]) && Distinct(layers)
      invariant forall l :: (l in layers <==> l in lists) && (l in lists ==> lists[l] == OfLayer(cands[..i], l))
    {
      var p := cands[i];
      assert cands[..i + 1] == cands[..i] + [p];
      assert cands[..i + 1][..i] == cands[..i];
      forall l
        ensures OfLayer(cands[..i + 1], l) == OfLayer(cands[..i], l) + if p.layer == l then [p] else []
      {
        OfLayerNext(cands[..i], p, l);
      }
      if p.layer !in lists {
        FirstsComplete(cands[..i], p.layer);
        lists, layers := lists[p.layer := []], layers + [p.layer];
      }
      lists := lists[p.layer := lists[p.layer] + [p]];
    }
    assert cands[..|cands|] == cands;
  }

  lemma TakeOne(s: seq<Pair>, cands: seq<Pair>, p: Pair, m: nat)
    requires Count(s, m) <= Count(cands, m) && OfLayer(s, m) == OfLayer(cands, m)[..Count(s, m)]
    requires p.layer == m ==> Count(s, m) < Count(cands, m) && p == OfLayer(cands, m)[Count(s, m)]
    ensures Count(s + [p], m) == Count(s, m) + if m == p.layer then 1 else 0
    ensures Count(s + [p], m) <= Count(cands, m) && OfLayer(s + [p], m) == OfLayer(cands, m)[..Count(s + [p], m)]
  {
    OfLayerNext(s, p, m);
  }

  /** One candidate of layer l moves to the result. */
  lemma TakeNext(s: seq<Pair>, cands: seq<Pair>, lists: map<nat, seq<Pair>>, layers: seq<nat>, l: nat)
    requires Taken(s, cands, lists, layers) && l in lists && lists[l] != []
    ensures Taken(s + [lists[l][0]], cands, lists[l := lists[l][1..]], layers)
    ensures forall m: nat :: Count(s + [lists[l][0]], m) == Count(s, m) + if m == l then 1 else 0
  {
    var p := lists[l][0];
    var t, c := s + [p], OfLayer(cands, l);
    OfLayerIs(cands, l);
    assert p == c[Count(s, l)] && p in c;
    forall m: nat
      ensures Count(t, m) == Count(s, m) + if m == l then 1 else 0
      ensures Count(t, m) <= Count(cands, m) && OfLayer(t, m) == OfLayer(cands, m)[..Count(t, m)]
    {
      TakeOne(s, cands, p, m);
    }
    assert lists[l][1..] == c[Count(t, l)..];
  }

  lemma PrefixesFair(s: seq<Pair>, t: seq<Pair>, cands: seq<Pair>, layers: seq<nat>)
    requires |t| == |s| + 1 && t[..|s|] == s && Fair(t, cands, layers)
    requires AllFair(s, cands, layers)
    ensures AllFair(t, cands, layers)
  {
    forall n | 0 <= n <= |t|
      ensures Fair(t[..n], cands, layers)
    {
      if n <= |s| {
        assert t[..n] == s[..n];
      } else {
        assert t[..n] == t;
      }
    }
  }

  lemma RoundNext(s: seq<Pair>, t: seq<Pair>, cands: seq<Pair>, layers: seq<nat>, k: nat, i: nat)
    requires Distinct(layers) && InRound(s, cands, layers, k, i) && i < |layers|
    requires forall m: nat :: Count(t, m) == Count(s, m) + if m == layers[i] then 1 else 0
    requires Count(s, layers[i]) < Count(cands, layers[i])
    ensures InRound(t, cands, layers, k, i + 1)
  {
    forall j | 0 <= j < |layers|
      ensures Count(t, layers[j]) == Lesser(if j < i + 1 then k + 1 else k, Count(cands, layers[j]))
    {
      assert layers[j] == layers[i] <==> j == i;
      assert Count(s, layers[j]) == Lesser(if j < i then k + 1 else k, Count(cands, layers[j]));
    }
  }

  lemma Pop(s: seq<Pair>, t: seq<Pair>, cands: seq<Pair>, lists: map<nat, seq<Pair>>, layers: seq<nat>, k: nat, i: nat)
    requires Distinct(layers) && i < |layers| && Taken(s, cands, lists, layers) && InRound(s, cands, layers, k, i)
    requires layers[i] in lists && lists[layers[i]] != [] && t == s + [lists[layers[i]][0]]
    requires AllFair(s, cands, layers)
    ensures Taken(t, cands, lists[layers[i] := lists[layers[i]][1..]], layers) && InRound(t, cands, layers, k, i + 1)
    ensures AllFair(t, cands, layers)
  {
    TakeNext(s, cands, lists, layers, layers[i]);
    RoundNext(s, t, cands, layers, k, i);
    InRoundIsFair(t, cands, layers, k, i + 1);
    PrefixesFair(s, t, cands, layers);
  }

  /** A layer with nothing left is passed over. */
  lemma Skip(s: seq<Pair>, cands: seq<Pair>, lists: map<nat, seq<Pair>>, layers: seq<nat>, k: nat, i: nat)
    requires Taken(s, cands, lists, layers) && InRound(s, cands, layers, k, i) && i < |layers| && layers[i] in lists && lists[layers[i]] == []
    ensures InRound(s, cands, layers, k, i + 1)
  {
    assert Count(s, layers[i]) == Count(cands, layers[i]);
  }

  lemma RoundOver(s: seq<Pair>, cands: seq<Pair>, layers: seq<nat>, k: nat)
    requires InRound(s, cands, layers, k, |layers|)
    ensures InRound(s, cands, layers, k + 1, 0)
  {
  }

  /** for l in list(lists): if lists[l]: out.append(lists[l].pop(0)). */
  method Round(cands: seq<Pair>, lists0: map<nat, seq<Pair>>, layers: seq<nat>, out0: seq<Pair>, ghost k: nat)
    returns (lists: map<nat, seq<Pair>>, out: seq<Pair>)
    requires Distinct(layers) && Taken(out0, cands, lists0, layers) && InRound(out0, cands, layers, k, 0)
    requires AllFair(out0, cands, layers)
    ensures Taken(out, cands, lists, layers) && InRound(out, cands, layers, k + 1, 0)
    ensures AllFair(out, cands, layers)
  {
    lists, out := lists0, out0;
    for i := 0 to |layers|
      invariant Taken(out, cands, lists, layers) && InRound(out, cands, layers, k, i)
      invariant AllFair(out, cands, layers)
    {
      var l := layers[i];
      if lists[l] != [] {
        ghost var was, left := out, lists;
        out, lists := out + [lists[l][0]], lists[l := lists[l][1..]];
        Pop(was, out, cands, left, layers, k, i);
      } else {
        Skip(out, cands, lists, layers, k, i);
      }
    }
    RoundOver(out, cands, layers, k);
  }

  lemma Lengths(s: seq<Pair>)
    ensures forall l :: Count(s, l) <= |s|
  {
    forall l: nat
      ensures Count(s, l) <= |s|
    {
      OfLayerIs(s, l);
    }
  }

  lemma NothingTaken(none: seq<Pair>, cands: seq<Pair>, lists: map<nat, seq<Pair>>, layers: seq<nat>)
    requires none == []
    requires forall l :: (l in layers <==> l in lists) && (l in lists ==> lists[l] == OfLayer(cands, l))
    ensures Taken(none, cands, lists, layers) && InRound(none, cands, layers, 0, 0)
    ensures AllFair(none, cands, layers)
  {
    InRoundIsFair(none, cands, layers, 0, 0);
    assert none[..0] == none;
  }

  lemma RoundsBounded(s: seq<Pair>, cands: seq<Pair>, lists: map<nat, seq<Pair>>, layers: seq<nat>, k: nat, l: nat)
    requires Taken(s, cands, lists, layers) && InRound(s, cands, layers, k, 0) && l in layers && lists[l] != []
    ensures k < |cands|
  {
    var j :| 0 <= j < |layers| && layers[j] == l;
    assert Count(s, layers[j]) == Lesser(k, Count(cands, layers[j]));
    Lengths(cands);
  }

  lemma AllTaken(s: seq<Pair>, cands: seq<Pair>, lists: map<nat, seq<Pair>>, layers: seq<nat>)
    requires Taken(s, cands, lists, layers) && layers == Firsts(cands) && forall l :: l in layers ==> lists[l] == []
    ensures forall l :: OfLayer(s, l) == OfLayer(cands, l)
    ensures multiset(s) == multiset(cands)
  {
    forall l: nat
      ensures OfLayer(s, l) == OfLayer(cands, l)
    {
      FirstsComplete(cands, l);
      assert l in layers ==> lists[l] == [];
    }
    LayersPermute(s, cands);
  }

  /** while any(by.values()): a round. Every layer keeps its own order, and every prefix is fair between the layers. */
  method Interleave(cands: seq<Pair>) returns (out: seq<Pair>)
    ensures multiset(out) == multiset(cands)
    ensures forall l :: OfLayer(out, l) == OfLayer(cands, l)
    ensures AllFair(out, cands, Firsts(cands))
  {
    var lists: map<nat, seq<Pair>>, layers: seq<nat> := Split(cands);
    out := [];
    ghost var k := 0;
    NothingTaken(out, cands, lists, layers);
    while exists l :: l in layers && lists[l] != []
      invariant Taken(out, cands, lists, layers) && InRound(out, cands, layers, k, 0)
      invariant AllFair(out, cands, layers)
      decreases |cands| - k
    {
      ghost var l :| l in layers && lists[l] != [];
      RoundsBounded(out, cands, lists, layers, k, l);
      lists, out := Round(cands, lists, layers, out, k);
      k := k + 1;
    }
    AllTaken(out, cands, lists, layers);
  }

  // ------------------------------------------------------------------ the strategies

  /** What each strategy promises of the candidates it orders. */
  ghost predicate InOrder(out: seq<Pair>, cands: seq<Pair>, order: Order, freq: map<Pair, nat>) {
    && multiset(out) == multiset(cands)
    && match order
       case Sorted => out == cands
       case Hottest => Descending(out, freq) && forall f {:trigger WithFreq(out, freq, f)} :: WithFreq(out, freq, f) == WithFreq(cands, freq, f)
       case RoundRobin => AllFair(out, cands, Firsts(cands)) && forall l :: OfLayer(out, l) == OfLayer(cands, l)
  }

  method OrderCandidates(cands: seq<Pair>, order: Order, freq: map<Pair, nat>) returns (out: seq<Pair>)
    ensures InOrder(out, cands, order, freq)
  {
    match order
    case Sorted => out := cands;
    case Hottest =>
      out := StableSort(cands, freq);
      forall f: nat
        ensures WithFreq(out, freq, f) == WithFreq(cands, freq, f)
      {
        SortIsStable(cands, freq, f);
      }
      SortIsStable(cands, freq, 0);
    case RoundRobin => out := Interleave(cands);
  }
}
