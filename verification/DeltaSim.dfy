/** The delta-cache simulator: frames of routed (layer, expert) pairs replayed through a promotion and eviction policy over a
    fixed number of slots. */
module DeltaSim {
  import opened Options
  import opened DeltaOrder
  import opened DeltaPromotion

  // ------------------------------------------------------------------ a frame's routed pairs

  /** The owners after the first pairs of a frame have been seen. */
  ghost predicate Touched(o: map<nat, Entry>, o2: map<nat, Entry>, pairs: seq<Pair>, tick: int) {
    && o2.Keys == o.Keys
    && forall s :: s in o ==> o2[s] == Entry(o[s].pair, if o[s].pair in pairs then tick else o[s].seen)
  }

  ghost predicate Raised(c: map<Pair, nat>, c2: map<Pair, nat>, pairs: seq<Pair>) {
    forall q {:trigger Get(c2, q)} :: Get(c2, q) == Get(c, q) + Listed(pairs, q)
  }

  /** The listed pairs that are not cached and have been routed often enough by then, in the frame's order. */
  ghost function Candidates(pairs: seq<Pair>, mirror: map<Pair, nat>, freq: map<Pair, nat>, threshold: int): seq<Pair> {
    if pairs == [] then []
    else
      var p := pairs[|pairs| - 1];
      Candidates(pairs[..|pairs| - 1], mirror, freq, threshold)
      + if p !in mirror && Get(freq, p) + Listed(pairs, p) >= threshold then [p] else []
  }

  lemma {:induction false} CandidatesAre(pairs: seq<Pair>, mirror: map<Pair, nat>, freq: map<Pair, nat>, threshold: int)
    ensures forall p :: p in Candidates(pairs, mirror, freq, threshold) ==> p in pairs && p !in mirror
    ensures Distinct(pairs) ==> Distinct(Candidates(pairs, mirror, freq, threshold))
  {
    if pairs != [] {
      var rest, p := pairs[..|pairs| - 1], pairs[|pairs| - 1];
      assert pairs == rest + [p];
      CandidatesAre(rest, mirror, freq, threshold);
      if Distinct(pairs) {
        assert p !in rest;
      }
    }
  }

  /** How many pairs of a frame were cached. */
  ghost function Hits(pairs: seq<Pair>, held: set<Pair>): nat {
    if pairs == [] then 0 else Hits(pairs[..|pairs| - 1], held) + if pairs[|pairs| - 1] in held then 1 else 0
  }

  lemma HitsNext(pairs: seq<Pair>, p: Pair, a: set<Pair>)
    ensures Hits(pairs + [p], a) == Hits(pairs, a) + if p in a then 1 else 0
  {
    assert (pairs + [p])[..|pairs|] == pairs;
  }

  lemma ListedNext(pairs: seq<Pair>, p: Pair, q: Pair)
    ensures Listed(pairs + [p], q) == Listed(pairs, q) + if p == q then 1 else 0
  {
    assert (pairs + [p])[..|pairs|] == pairs;
  }

  lemma CandidatesNext(pairs: seq<Pair>, p: Pair, mirror: map<Pair, nat>, freq: map<Pair, nat>, threshold: int)
    ensures Candidates(pairs + [p], mirror, freq, threshold) == Candidates(pairs, mirror, freq, threshold)
            + if p !in mirror && Get(freq, p) + Listed(pairs + [p], p) >= threshold then [p] else []
  {
    assert (pairs + [p])[..|pairs|] == pairs;
  }

  lemma TouchOwner(t: Tables, o2: map<nat, Entry>, pairs: seq<Pair>, p: Pair, tick: int)
    requires Inverse(t) && Touched(t.owner, o2, pairs, tick)
    ensures p in t.mirror ==> t.mirror[p] in o2 && Touched(t.owner, o2[t.mirror[p] := Entry(p, tick)], pairs + [p], tick) && o2[t.mirror[p]].pair == p
    ensures p !in t.mirror ==> Touched(t.owner, o2, pairs + [p], tick)
  {
    if p in t.mirror {
      var s := t.mirror[p];
      assert t.owner[s].pair == p;
      assert forall i :: i in t.owner && i != s ==> t.owner[i].pair != p;
    } else {
      assert forall i :: i in t.owner ==> t.owner[i].pair != p;
    }
  }

  lemma RaiseAt(c: map<Pair, nat>, c2: map<Pair, nat>, pairs: seq<Pair>, p: Pair, q: Pair)
    requires Raised(c, c2, pairs)
    ensures Get(c2[p := Get(c2, p) + 1], q) == Get(c, q) + Listed(pairs + [p], q)
  {
    assert Get(c2, q) == Get(c, q) + Listed(pairs, q);
    ListedNext(pairs, p, q);
  }

  lemma RaiseOne(c: map<Pair, nat>, c2: map<Pair, nat>, c3: map<Pair, nat>, pairs: seq<Pair>, p: Pair)
    requires Raised(c, c2, pairs) && c3 == c2[p := Get(c2, p) + 1]
    ensures Raised(c, c3, pairs + [p])
  {
    forall q
      ensures Get(c3, q) == Get(c, q) + Listed(pairs + [p], q)
    {
      RaiseAt(c, c2, pairs, p, q);
    }
  }

  /** What the first i pairs of a frame have changed. */
  ghost predicate Touching(t: Tables, o2: map<nat, Entry>, c: map<Pair, nat>, c2: map<Pair, nat>, cands: seq<Pair>, f: Frame, i: nat, threshold: int)
    requires i <= |f.pairs|
  {
    && Touched(t.owner, o2, f.pairs[..i], f.tick) && Raised(c, c2, f.pairs[..i])
    && cands == Candidates(f.pairs[..i], t.mirror, c, threshold)
  }

  lemma TouchingStart(t: Tables, c: map<Pair, nat>, f: Frame, i: nat, threshold: int)
    requires i == 0
    ensures Touching(t, t.owner, c, c, [], f, i, threshold)
  {
    var none := f.pairs[..i];
    assert none == [];
    forall q
      ensures Get(c, q) == Get(c, q) + Listed(none, q)
    {
    }
  }

  lemma TouchingNext(t: Tables, o2: map<nat, Entry>, c: map<Pair, nat>, c2: map<Pair, nat>, cands: seq<Pair>, f: Frame, i: nat, threshold: int,
                     p: Pair, c3: map<Pair, nat>)
    requires Inverse(t) && i < |f.pairs| && Touching(t, o2, c, c2, cands, f, i, threshold)
    requires p == f.pairs[i] && c3 == c2[p := Get(c2, p) + 1]
    ensures p in t.mirror ==> t.mirror[p] in o2 && o2[t.mirror[p]].pair == p
    ensures Touching(t, if p in t.mirror then o2[t.mirror[p] := Entry(p, f.tick)] else o2, c, c3,
                     if p !in t.mirror && Get(c3, p) >= threshold then cands + [p] else cands, f, i + 1, threshold)
  {
    assert f.pairs[..i + 1] == f.pairs[..i] + [p];
    RaiseOne(c, c2, c3, f.pairs[..i], p);
    TouchOwner(t, o2, f.pairs[..i], p, f.tick);
    assert Get(c3, p) == Get(c, p) + Listed(f.pairs[..i + 1], p);
    CandidatesNext(f.pairs[..i], p, t.mirror, c, threshold);
  }

  lemma TouchedShape(n: nat, t: Tables, t2: Tables, pairs: seq<Pair>, tick: int)
    requires Shape(n, t, {}) && Touched(t.owner, t2.owner, pairs, tick) && t2 == t.(owner := t2.owner)
    ensures Shape(n, t2, {})
  {
    assert Open(0);
    assert forall s :: s in t2.owner <==> s in t.owner;
  }

  lemma TouchedLoad(o: map<nat, Entry>, o2: map<nat, Entry>, layers: map<nat, nat>, cap: Option<nat>, pairs: seq<Pair>, tick: int)
    requires Load(o, layers, cap) && Touched(o, o2, pairs, tick)
    ensures Load(o2, layers, cap)
  {
    assert Open(0);
    forall l: nat
      ensures Get(layers, l) == |SlotsOf(o2, l)|
    {
      assert Get(layers, l) == |SlotsOf(o, l)|;
      assert SlotsOf(o2, l) == SlotsOf(o, l);
    }
  }

  lemma PastNext(past: seq<Frame>, f: Frame, q: Pair)
    ensures LastTick(past + [f], q) == if q in f.pairs then f.tick else LastTick(past, q)
    ensures Times(past + [f], q) == Times(past, q) + Listed(f.pairs, q)
    ensures Routed(past + [f], q) <==> q in f.pairs || Routed(past, q)
  {
    var all := past + [f];
    assert all[..|past|] == past;
    assert all[|past|] == f;
    if i :| 0 <= i < |past| && q in past[i].pairs {
      assert all[i] == past[i];
    }
  }

  lemma TouchedHistory(o: map<nat, Entry>, o2: map<nat, Entry>, c: map<Pair, nat>, c2: map<Pair, nat>, past: seq<Frame>, f: Frame)
    requires History(o, c, past) && Touched(o, o2, f.pairs, f.tick) && Raised(c, c2, f.pairs)
    ensures History(o2, c2, past + [f])
  {
    assert Open(0);
    forall s | s in o2
      ensures Routed(past + [f], o2[s].pair) && o2[s].seen == LastTick(past + [f], o2[s].pair)
    {
      assert s in o;
      PastNext(past, f, o2[s].pair);
    }
    forall q
      ensures Get(c2, q) == Times(past + [f], q)
    {
      assert Get(c, q) == Times(past, q);
      PastNext(past, f, q);
    }
  }

  /** The frame's own pairs cannot be evicted anyway, so the room is that before the frame. */
  lemma TouchedRoom(t: Tables, t2: Tables, u: Turn, floor: int, pairs: seq<Pair>)
    requires Touched(t.owner, t2.owner, pairs, u.tick) && t2.free == t.free && u.seen == SetOf(pairs)
    ensures Room(t2, u, floor) == Room(t, u, floor)
  {
    assert Evictable(t2, u, floor) == Evictable(t, u, floor);
  }

  lemma SameElements(a: seq<Pair>, b: seq<Pair>)
    requires multiset(a) == multiset(b)
    ensures forall p :: p in a <==> p in b
  {
    forall p
      ensures p in a <==> p in b
    {
      assert p in a <==> p in multiset(a);
      assert p in b <==> p in multiset(b);
    }
  }

  lemma OrderedIsFresh(cands: seq<Pair>, ordered: seq<Pair>, f: Frame, was: map<Pair, nat>, before: seq<Frame>,
                       freq: map<Pair, nat>, u: Turn, threshold: int)
    requires cands == Candidates(f.pairs, was, freq, threshold) && multiset(ordered) == multiset(cands)
    requires u.seen == SetOf(f.pairs) && u.tick == f.tick
    ensures Fresh(ordered, was, u, before + [f]) && forall p :: p in ordered ==> p in u.seen
    ensures Distinct(f.pairs) ==> Distinct(ordered)
  {
    CandidatesAre(f.pairs, was, freq, threshold);
    SameElements(cands, ordered);
    if Distinct(f.pairs) {
      PermutedIsDistinct(cands, ordered);
    }
    forall p | p in ordered
      ensures p !in was && p in u.seen && Routed(before + [f], p) && LastTick(before + [f], p) == u.tick
    {
      PastNext(before, f, p);
    }
  }

  // ------------------------------------------------------------------ the loop and the function

  /** After i candidates with k placed, the loop at t is to end as the function says of its start t0. */
  ghost predicate Doing(t0: Tables, t: Tables, pol: Policy, u: Turn, ordered: seq<Pair>, i: nat, k: nat, gone: seq<int>)
    requires i <= |ordered|
  {
    forall o {:trigger Open(o)} :: o == 0 ==>
      var whole, rest := Decide(t0, pol, u, ordered, 0), Decide(t, pol, u, ordered[i..], k);
      whole.0 == rest.0 && |Placements(whole.1)| == k + |Placements(rest.1)| && ColdsOf(whole.1, u.tick) == gone + ColdsOf(rest.1, u.tick)
  }

  lemma DoingStart(t: Tables, pol: Policy, u: Turn, ordered: seq<Pair>)
    ensures Doing(t, t, pol, u, ordered, 0, 0, [])
  {
    assert ordered[0..] == ordered;
    var colds := ColdsOf(Decide(t, pol, u, ordered, 0).1, u.tick);
    assert [] + colds == colds;
  }

  lemma DecideSkip(t: Tables, pol: Policy, u: Turn, ordered: seq<Pair>, k: nat)
    requires ordered != [] && k < pol.promote && Full(t, pol.cap, ordered[0])
    ensures var r, rest := Decide(t, pol, u, ordered, k), Decide(t, pol, u, ordered[1..], k);
      r.0 == rest.0 && |Placements(r.1)| == |Placements(rest.1)| && ColdsOf(r.1, u.tick) == [] + ColdsOf(rest.1, u.tick)
  {
    var rest, d := Decide(t, pol, u, ordered[1..], k).1, Skip(ordered[0]);
    PlacementsNext(d, rest);
    ColdsNext(d, rest, u.tick);
  }

  lemma DoingSkip(t0: Tables, t: Tables, pol: Policy, u: Turn, ordered: seq<Pair>, i: nat, k: nat, gone: seq<int>)
    requires i < |ordered| && Doing(t0, t, pol, u, ordered, i, k, gone) && k < pol.promote && Full(t, pol.cap, ordered[i])
    ensures Doing(t0, t, pol, u, ordered, i + 1, k, gone)
  {
    DecideSkip(t, pol, u, ordered[i..], k);
    assert ordered[i..][1..] == ordered[i + 1..];
    DoingMoves(t0, t, t, pol, u, ordered, i, k, k, gone, []);
    assert gone + [] == gone;
  }

  lemma DecidePlace(t: Tables, pol: Policy, u: Turn, ordered: seq<Pair>, k: nat, s: nat)
    requires ordered != [] && k < pol.promote && !Full(t, pol.cap, ordered[0]) && SlotFor(t, pol, u) == Some(s)
    ensures var r, rest := Decide(t, pol, u, ordered, k), Decide(Replaced(t, ordered[0], s, u.tick), pol, u, ordered[1..], k + 1);
      r.0 == rest.0 && |Placements(r.1)| == 1 + |Placements(rest.1)|
      && ColdsOf(r.1, u.tick) == ColdOf(Leaves(t, s), u.tick) + ColdsOf(rest.1, u.tick)
  {
    var rest, d := Decide(Replaced(t, ordered[0], s, u.tick), pol, u, ordered[1..], k + 1).1, Place(ordered[0], s, Leaves(t, s));
    PlacementsNext(d, rest);
    ColdsNext(d, rest, u.tick);
  }

  lemma DoingPlace(t0: Tables, t: Tables, pol: Policy, u: Turn, ordered: seq<Pair>, i: nat, k: nat, gone: seq<int>, s: nat)
    requires i < |ordered| && Doing(t0, t, pol, u, ordered, i, k, gone) && k < pol.promote && !Full(t, pol.cap, ordered[i])
    requires SlotFor(t, pol, u) == Some(s)
    ensures Doing(t0, Replaced(t, ordered[i], s, u.tick), pol, u, ordered, i + 1, k + 1, gone + ColdOf(Leaves(t, s), u.tick))
  {
    DecidePlace(t, pol, u, ordered[i..], k, s);
    assert ordered[i..][1..] == ordered[i + 1..];
    DoingMoves(t0, t, Replaced(t, ordered[i], s, u.tick), pol, u, ordered, i, k, k + 1, gone, ColdOf(Leaves(t, s), u.tick));
  }

  lemma DoingMoves(t0: Tables, t: Tables, t2: Tables, pol: Policy, u: Turn, ordered: seq<Pair>, i: nat, k: nat, k2: nat,
                   gone: seq<int>, more: seq<int>)
    requires i < |ordered| && Doing(t0, t, pol, u, ordered, i, k, gone)
    requires var r, rest := Decide(t, pol, u, ordered[i..], k), Decide(t2, pol, u, ordered[i + 1..], k2);
      r.0 == rest.0 && k + |Placements(r.1)| == k2 + |Placements(rest.1)| && ColdsOf(r.1, u.tick) == more + ColdsOf(rest.1, u.tick)
    ensures Doing(t0, t2, pol, u, ordered, i + 1, k2, gone + more)
  {
    assert Open(0);
    var colds := ColdsOf(Decide(t2, pol, u, ordered[i + 1..], k2).1, u.tick);
    assert gone + (more + colds) == gone + more + colds;
  }

  lemma DoingStop(t0: Tables, t: Tables, pol: Policy, u: Turn, ordered: seq<Pair>, i: nat, k: nat, gone: seq<int>)
    requires i <= |ordered| && Doing(t0, t, pol, u, ordered, i, k, gone)
    requires i == |ordered| || k >= pol.promote || (!Full(t, pol.cap, ordered[i]) && SlotFor(t, pol, u).None?)
    ensures var r := Decide(t0, pol, u, ordered, 0); t == r.0 && k == |Placements(r.1)| && gone == ColdsOf(r.1, u.tick)
  {
    assert Open(0);
    assert Decide(t, pol, u, ordered[i..], k) == (t, []);
    assert gone + [] == gone;
  }

  // ------------------------------------------------------------------ the simulator

  ghost predicate Books(promotions: nat, evictions: nat, owned: nat, base: int, colds: seq<int>, floor: int) {
    && promotions - evictions == owned - base
    && |colds| == evictions && forall i :: 0 <= i < |colds| ==> colds[i] >= floor
  }

  lemma Initial(n: nat, t: Tables, freq: map<Pair, nat>, cap: Option<nat>, past: seq<Frame>)
    requires t.mirror == map[] && t.owner == map[] && t.layers == map[] && t.slots == [] && freq == map[] && past == []
    requires |t.free| == n && forall i :: 0 <= i < n ==> t.free[i] == i
    ensures Shape(n, t, {}) && Load(t.owner, t.layers, cap) && History(t.owner, freq, past)
  {
    forall l: nat
      ensures Get(t.layers, l) == |SlotsOf(t.owner, l)|
    {
      assert SlotsOf(t.owner, l) == {};
    }
    assert LayersCounted(t.owner, t.layers) && Capped(t.layers, cap);
    assert Partition(n, t) && Paired(t, {});
    assert SeenIsLast(t.owner, past) && Counted(freq, past);
  }

  /** The owners of the first k slots. */
  ghost function OwnersTo(t: Tables, k: nat): set<Pair>
    requires k <= |t.slots|
  {
    if k == 0 then {} else if t.slots[k - 1] in t.owner then OwnersTo(t, k - 1) + {t.owner[t.slots[k - 1]].pair} else OwnersTo(t, k - 1)
  }

  lemma {:induction false} OwnersAre(n: nat, t: Tables, k: nat)
    requires Partition(n, t) && Inverse(t) && k <= |t.slots|
    ensures |OwnersTo(t, k)| == k && forall p :: p in OwnersTo(t, k) <==> p in t.mirror && t.mirror[p] >= n - k
  {
    if k > 0 {
      OwnersAre(n, t, k - 1);
      var s := t.slots[k - 1];
      assert s == n - k && t.mirror[t.owner[s].pair] == s;
    }
  }

  /** As many pairs are cached as slots are owned. */
  lemma OwnedAreCached(n: nat, t: Tables)
    requires Shape(n, t, {})
    ensures |t.mirror| == |t.slots|
  {
    ShapeOpens(n, t, {});
    InverseIsShape(n, t, {});
    OwnersAre(n, t, |t.slots|);
    assert t.mirror.Keys == OwnersTo(t, |t.slots|);
    assert |t.mirror| == |t.mirror.Keys|;
  }

  /** Which candidates a frame places, read from the tables before it, the candidates in strategy order and the policy. */
  ghost predicate PlacesRight(t: Tables, pol: Policy, u: Turn, ordered: seq<Pair>, log: seq<Decision>) {
    && |log| <= |ordered| && Asked(log) == ordered[..|log|]
    && (pol.cap.None? ==> Placements(log) == ordered[..Quota(|ordered|, pol.promote, Room(t, u, pol.floor))])
    && (pol.promote <= |t.free| ==> Placements(log) == Greedy(t.layers, pol.cap, ordered, pol.promote))
  }

  lemma DecidePlacesRight(n: nat, t: Tables, pol: Policy, u: Turn, ordered: seq<Pair>)
    requires Shape(n, t, u.seen) && forall p :: p in ordered ==> p in u.seen
    ensures PlacesRight(t, pol, u, ordered, Decide(t, pol, u, ordered, 0).1)
  {
    DecideInOrder(t, pol, u, ordered, 0);
    if pol.cap.None? {
      DecideFirst(n, t, pol, u, ordered, 0);
    }
    if pol.promote <= |t.free| {
      DecideGreedy(t, pol, u, ordered, 0);
      assert Open(0);
    }
  }

  /** What one frame does to the tables, whatever it lists. */
  ghost predicate FrameDone(t0: Tables, t: Tables, pol: Policy, u: Turn, past: seq<Frame>, ordered: seq<Pair>, log: seq<Decision>) {
    forall k {:trigger Open(k)} :: k == 0 ==>
      && PlacesRight(t0, pol, u, ordered, log)
      && Keeps(t0.mirror, t.mirror, past, u, pol.floor)
      && (forall p :: p in t.mirror ==> p in t0.mirror || p in Placements(log))
      && (forall p :: p in Placements(log) ==> p in t.mirror && p in u.seen && p !in t0.mirror)
      && (Inverse(t) <==> Distinct(Placements(log))) && (Distinct(ordered) ==> Inverse(t))
  }

  lemma FrameCloses(t0: Tables, t: Tables, pol: Policy, u: Turn, past: seq<Frame>, ordered: seq<Pair>, log: seq<Decision>)
    requires PlacesRight(t0, pol, u, ordered, log) && Keeps(t0.mirror, t.mirror, past, u, pol.floor)
    requires forall p :: p in t.mirror ==> p in t0.mirror || p in Placements(log)
    requires forall p :: p in Placements(log) ==> p in t.mirror && p in ordered
    requires forall p :: p in ordered ==> p in u.seen && p !in t0.mirror
    requires Inverse(t) <==> Distinct(Placements(log))
    requires Distinct(ordered) ==> Distinct(Placements(log))
    ensures FrameDone(t0, t, pol, u, past, ordered, log)
  {
  }

  lemma PlacedFromOrdered(ordered: seq<Pair>, log: seq<Decision>)
    requires |log| <= |ordered| && Asked(log) == ordered[..|log|]
    ensures forall p :: p in Placements(log) ==> p in ordered
    ensures Distinct(ordered) ==> Distinct(Placements(log))
  {
    PlacedOnce(log);
  }

  lemma AllNewIs(pairs: seq<Pair>, t: Tables)
    requires forall p :: p in pairs ==> p !in t.mirror
    ensures AllNew(pairs, t.mirror) <==> Distinct(pairs)
  {
  }

  /** A frame's promotions, from the tables t with the frame's pairs touched. */
  lemma FrameIsDone(n: nat, t0: Tables, t: Tables, pol: Policy, u: Turn, past: seq<Frame>, pairs: seq<Pair>, ordered: seq<Pair>)
    requires Shape(n, t, {}) && Touched(t0.owner, t.owner, pairs, u.tick) && t == t0.(owner := t.owner) && u.seen == SetOf(pairs)
    requires Going(n, t0.mirror, t, pol, u, past) && Fresh(ordered, t0.mirror, u, past) && forall p :: p in ordered ==> p in u.seen
    ensures var r := Decide(t, pol, u, ordered, 0);
      FrameDone(t0, r.0, pol, u, past, ordered, r.1) && Going(n, t0.mirror, r.0, pol, u, past)
  {
    var r := Decide(t, pol, u, ordered, 0);
    InverseIsShape(n, t, {});
    FramePlaces(n, t0, t, pol, u, pairs, ordered);
    DecideGoes(n, t0.mirror, t, pol, u, past, ordered, 0);
    DecideInverse(n, t, pol, u, ordered, 0);
    DecideCaches(n, t, pol, u, ordered, 0);
    PlacedFromOrdered(ordered, r.1);
    AllNewIs(Placements(r.1), t);
    FrameCloses(t0, r.0, pol, u, past, ordered, r.1);
  }

  lemma FramePlaces(n: nat, t0: Tables, t: Tables, pol: Policy, u: Turn, pairs: seq<Pair>, ordered: seq<Pair>)
    requires Shape(n, t, u.seen) && Touched(t0.owner, t.owner, pairs, u.tick) && t == t0.(owner := t.owner) && u.seen == SetOf(pairs)
    requires forall p :: p in ordered ==> p in u.seen
    ensures PlacesRight(t0, pol, u, ordered, Decide(t, pol, u, ordered, 0).1)
  {
    TouchedRoom(t0, t, u, pol.floor, pairs);
    DecidePlacesRight(n, t, pol, u, ordered);
  }

  lemma FrameKeepsDistinct(t0: Tables, t: Tables, pol: Policy, u: Turn, past: seq<Frame>, ordered: seq<Pair>, log: seq<Decision>)
    requires FrameDone(t0, t, pol, u, past, ordered, log) && Distinct(ordered)
    ensures Inverse(t)
  {
    assert Open(0);
  }

  /** The tables and counters of simulate(). */
  class Simulator {
    const n: nat
    const policy: Policy
    var mirror: map<Pair, nat>
    var owner: map<nat, Entry>
    var slots: seq<nat>
    var free: seq<nat>
    var freq: map<Pair, nat>
    var layers: map<nat, nat>
    var promotions: nat
    var evictions: nat
    var hits: nat
    var active: nat
    var colds: seq<int>
    ghost var past: seq<Frame>
    /** The owned slots when the scored frames began. */
    ghost var base: int

    function View(): Tables
      reads this
    {
      Tables(mirror, owner, slots, free, layers)
    }

    /** In or after a frame of these pairs. */
    ghost predicate Standing(seen: set<Pair>)
      reads this
    {
      && Shape(n, View(), seen) && Load(owner, layers, policy.cap) && History(owner, freq, past)
      && Books(promotions, evictions, |slots|, base, colds, policy.floor)
    }

    ghost predicate Valid()
      reads this
    {
      Standing({})
    }

    constructor (n: nat, policy: Policy)
      ensures Valid() && past == [] && mirror == map[] && |free| == n && promotions == evictions == hits == active == 0
      ensures this.n == n && this.policy == policy && freq == map[]
    {
      this.n, this.policy := n, policy;
      mirror, owner, slots, free, freq, layers := map[], map[], [], seq(n, i => i), map[], map[];
      promotions, evictions, hits, active, colds := 0, 0, 0, 0, [];
      past, base := [], 0;
      new;
      Initial(n, View(), freq, policy.cap, past);
    }

    /** The nested victim(): a scan of the owner table in its insertion order. */
    method Victim(u: Turn) returns (best: Option<nat>)
      requires Shape(n, View(), u.seen)
      ensures best == Scan(View(), policy, u, |slots|)
      ensures if best.Some? then IsVictim(owner, policy.evict, policy.floor, u, best.value)
              else forall s :: s in owner ==> owner[s].pair in u.seen || u.tick - owner[s].seen < policy.floor
      ensures best.Some? ==> owner[best.value].pair !in u.seen && u.tick - owner[best.value].seen >= policy.floor
      ensures best.Some? && policy.evict == Lru ==>
                forall t :: t in owner && owner[t].pair !in u.seen && u.tick - owner[t].seen >= policy.floor ==>
                  owner[best.value].seen < owner[t].seen || (owner[best.value].seen == owner[t].seen && t <= best.value)
      ensures best.Some? && policy.evict != Lru ==>
                forall t :: t in owner && owner[t].pair !in u.seen && u.tick - owner[t].seen >= policy.floor ==>
                  var a, b := Get(u.freq, owner[best.value].pair), Get(u.freq, owner[t].pair);
                  a < b || (a == b && (owner[best.value].seen < owner[t].seen || (owner[best.value].seen == owner[t].seen && t <= best.value)))
    {
      best := None;
      var bestKey := (0.0, 0);
      ShapeOpens(n, View(), u.seen);
      for i := 0 to |slots|
        invariant best == Scan(View(), policy, u, i) && (best.Some? ==> bestKey == KeyOf(policy.evict, owner[best.value], u))
      {
        var e := owner[slots[i]];
        if Eligible(e, u, policy.floor) {
          var key := KeyOf(policy.evict, e, u);
          if best.None? || Below(key, bestKey) {
            best, bestKey := Some(slots[i]), key;
          }
        }
      }
      ScanIs(n, View(), policy, u, |slots|);
      if best.Some? {
        if policy.evict == Lru {
          LruVictim(owner, policy.floor, u, best.value);
        } else {
          LfuVictim(owner, policy.evict, policy.floor, u, best.value);
        }
      }
    }

    /** The slot a candidate gets: off the free list, or a victim's, whose pair leaves. */
    method TakeSlot(u: Turn, scoring: bool) returns (s: Option<nat>)
      requires Shape(n, View(), u.seen) && Load(owner, layers, policy.cap)
      modifies `free, `mirror, `layers, `evictions, `colds
      ensures s == SlotFor(old(View()), policy, u) && View() == if s.Some? then Emptied(old(View()), s.value) else old(View())
      ensures s.Some? && old(free) == [] ==> IsVictim(owner, policy.evict, policy.floor, u, s.value)
      ensures colds == old(colds) + if scoring && s.Some? then ColdOf(Leaves(old(View()), s.value), u.tick) else []
      ensures evictions == old(evictions) + |colds| - |old(colds)|
    {
      if |free| > 0 {
        s := Some(free[|free| - 1]);
        free := free[..|free| - 1];
      } else {
        s := Victim(u);
        if s.Some? {
          var e := owner[s.value];
          LeaverCounted(owner, layers, policy.cap, s.value);
          mirror := mirror - {e.pair};
          layers := layers[e.pair.layer := Get(layers, e.pair.layer) - 1];
          if scoring {
            evictions, colds := evictions + 1, colds + [u.tick - e.seen];
          }
        }
      }
    }

    method Fill(p: Pair, s: nat, tick: int)
      modifies `mirror, `owner, `slots, `layers
      ensures View() == Filled(old(View()), p, s, tick)
    {
      mirror := mirror[p := s];
      if s !in owner {
        slots := slots + [s];
      }
      owner := owner[s := Entry(p, tick)];
      layers := layers[p.layer := Get(layers, p.layer) + 1];
    }

    /** One candidate: a slot for it, unless none can be had. */
    method Promote(p: Pair, u: Turn, scoring: bool) returns (s: Option<nat>)
      requires Shape(n, View(), u.seen) && Load(owner, layers, policy.cap)
      modifies `mirror, `owner, `slots, `free, `layers, `promotions, `evictions, `colds
      ensures s == SlotFor(old(View()), policy, u) && View() == if s.Some? then Replaced(old(View()), p, s.value, u.tick) else old(View())
      ensures s.Some? && old(free) == [] ==> IsVictim(old(owner), policy.evict, policy.floor, u, s.value)
      ensures promotions == old(promotions) + if scoring && s.Some? then 1 else 0
      ensures colds == old(colds) + if scoring && s.Some? then ColdOf(Leaves(old(View()), s.value), u.tick) else []
      ensures evictions == old(evictions) + |colds| - |old(colds)|
    {
      s := TakeSlot(u, scoring);
      if s.Some? {
        Fill(p, s.value, u.tick);
        if scoring {
          promotions := promotions + 1;
        }
      }
    }

    /** The promotion loop of a frame. */
    method PromoteAll(ordered: seq<Pair>, u: Turn, scoring: bool, ghost was: map<Pair, nat>) returns (count: nat)
      requires Going(n, was, View(), policy, u, past) && Fresh(ordered, was, u, past) && freq == u.freq
      modifies `mirror, `owner, `slots, `free, `layers, `promotions, `evictions, `colds
      ensures var r := Decide(old(View()), policy, u, ordered, 0);
        && View() == r.0 && count == |Placements(r.1)|
        && promotions == old(promotions) + (if scoring then count else 0)
        && colds == old(colds) + (if scoring then ColdsOf(r.1, u.tick) else [])
        && evictions == old(evictions) + |colds| - |old(colds)|
    {
      count := 0;
      ghost var t0, gone: seq<int> := View(), [];
      var i := 0;
      DoingStart(t0, policy, u, ordered);
      while i < |ordered|
        invariant 0 <= i <= |ordered| && Going(n, was, View(), policy, u, past) && Doing(t0, View(), policy, u, ordered, i, count, gone)
        invariant promotions == old(promotions) + (if scoring then count else 0)
        invariant colds == old(colds) + (if scoring then gone else []) && evictions == old(evictions) + |colds| - |old(colds)|
      {
        if count >= policy.promote {
          break;
        }
        ghost var t := View();
        if !Full(View(), policy.cap, ordered[i]) {
          var s := Promote(ordered[i], u, scoring);
          if s.None? {
            break;
          }
          FillGoes(n, was, t, policy, u, past, ordered[i], s.value);
          DoingPlace(t0, t, policy, u, ordered, i, count, gone, s.value);
          count, gone := count + 1, gone + ColdOf(Leaves(t, s.value), u.tick);
        } else {
          DoingSkip(t0, t, policy, u, ordered, i, count, gone);
        }
        i := i + 1;
      }
      DoingStop(t0, View(), policy, u, ordered, i, count, gone);
    }

    /** The hit count as the forward pass saw it, from the end of the warm-up on. */
    method Score(f: Frame, scoring: bool)
      modifies `hits, `active
      ensures hits == old(hits) + if scoring then Hits(f.pairs, mirror.Keys) else 0
      ensures active == old(active) + if scoring then |f.pairs| else 0
    {
      if scoring {
        for i := 0 to |f.pairs|
          invariant hits == old(hits) + Hits(f.pairs[..i], mirror.Keys) && active == old(active) + i
        {
          assert f.pairs[..i + 1] == f.pairs[..i] + [f.pairs[i]];
          HitsNext(f.pairs[..i], f.pairs[i], mirror.Keys);
          active := active + 1;
          if f.pairs[i] in mirror {
            hits := hits + 1;
          }
        }
        assert f.pairs[..|f.pairs|] == f.pairs;
      }
    }

    /** Frequencies and last-seen ticks of a frame, and its promotion candidates. */
    method Touch(f: Frame) returns (cands: seq<Pair>)
      requires Valid()
      modifies `freq, `owner, `past
      ensures Valid() && past == old(past) + [f] && cands == Candidates(f.pairs, mirror, old(freq), policy.threshold)
      ensures Touched(old(owner), owner, f.pairs, f.tick) && Raised(old(freq), freq, f.pairs)
    {
      cands := [];
      ghost var t := View();
      InverseIsShape(n, t, {});
      TouchingStart(t, freq, f, 0, policy.threshold);
      for i := 0 to |f.pairs|
        invariant past == old(past) && Touching(t, owner, old(freq), freq, cands, f, i, policy.threshold)
      {
        var p := f.pairs[i];
        ghost var was := freq;
        freq := freq[p := Get(freq, p) + 1];
        TouchingNext(t, owner, old(freq), was, cands, f, i, policy.threshold, p, freq);
        if p in mirror {
          owner := owner[mirror[p] := owner[mirror[p]].(seen := f.tick)];
        } else if Get(freq, p) >= policy.threshold {
          cands := cands + [p];
        }
      }
      assert f.pairs[..|f.pairs|] == f.pairs;
      TouchedShape(n, t, View(), f.pairs, f.tick);
      TouchedLoad(t.owner, owner, layers, policy.cap, f.pairs, f.tick);
      TouchedHistory(t.owner, owner, old(freq), freq, past, f);
      past := past + [f];
    }

    /** One frame, whatever it lists: score, touch, order, promote. */
    method Step(f: Frame, scoring: bool) returns (ghost ordered: seq<Pair>, ghost log: seq<Decision>)
      requires Valid()
      modifies this
      ensures past == old(past) + [f] && Standing(SetOf(f.pairs))
      ensures InOrder(ordered, Candidates(f.pairs, old(mirror), old(freq), policy.threshold), policy.order, freq)
      ensures FrameDone(old(View()), View(), policy, Turn(freq, SetOf(f.pairs), f.tick), past, ordered, log)
      ensures Distinct(f.pairs) ==> Valid()
      ensures hits == old(hits) + (if scoring then Hits(f.pairs, old(mirror.Keys)) else 0)
      ensures active == old(active) + (if scoring then |f.pairs| else 0)
      ensures promotions == old(promotions) + (if scoring then |Placements(log)| else 0)
      ensures colds == old(colds) + (if scoring then ColdsOf(log, f.tick) else [])
      ensures scoring ==> base == old(base)
    {
      Score(f, scoring);
      ghost var t0 := View();
      var cands := Touch(f);
      ordered, log := PromoteFrame(cands, f, scoring, t0, old(freq), old(past));
    }

    /** The second half of a frame. */
    method PromoteFrame(cands: seq<Pair>, f: Frame, scoring: bool, ghost t0: Tables, ghost freq0: map<Pair, nat>, ghost past0: seq<Frame>)
      returns (ghost ordered: seq<Pair>, ghost log: seq<Decision>)
      requires Valid() && Shape(n, t0, {}) && View() == t0.(owner := owner) && Touched(t0.owner, owner, f.pairs, f.tick)
      requires past == past0 + [f] && cands == Candidates(f.pairs, mirror, freq0, policy.threshold)
      modifies `mirror, `owner, `slots, `free, `layers, `promotions, `evictions, `colds, `base
      ensures Standing(SetOf(f.pairs)) && InOrder(ordered, cands, policy.order, freq)
      ensures FrameDone(t0, View(), policy, Turn(freq, SetOf(f.pairs), f.tick), past, ordered, log)
      ensures Distinct(f.pairs) ==> Valid()
      ensures promotions == old(promotions) + (if scoring then |Placements(log)| else 0)
      ensures colds == old(colds) + (if scoring then ColdsOf(log, f.tick) else [])
      ensures scoring ==> base == old(base)
    {
      var u := Turn(freq, SetOf(f.pairs), f.tick);
      var t := View();
      var order := OrderCandidates(cands, policy.order, freq);
      ordered, log := order, Decide(t, policy, u, order, 0).1;
      OrderedIsFresh(cands, order, f, mirror, past0, freq0, u, policy.threshold);
      ShapeWeakens(n, t, u.seen);
      FrameIsDone(n, t0, t, policy, u, past, f.pairs, order);
      DecideBooks(n, t, policy, u, order, 0);
      var count := PromoteAll(order, u, scoring, mirror);
      if !scoring {
        base := base + |slots| - |t.slots|;
      }
      if Distinct(f.pairs) {
        FrameKeepsDistinct(t0, View(), policy, u, past, order, log);
        InverseIsShape(n, View(), u.seen);
      }
    }

    /** The replay of a trace; held is what is cached before each frame and after the last. */
    method Run(frames: seq<Frame>, warmup: nat) returns (ghost held: seq<set<Pair>>)
      requires Valid() && past == [] && mirror == map[] && hits == 0 && active == 0 && promotions == 0 && evictions == 0
      requires forall i :: 0 <= i < |frames| ==> Distinct(frames[i].pairs)
      modifies this
      ensures Valid() && past == frames && |held| == |frames| + 1 && held[0] == {} && held[|frames|] == mirror.Keys
      ensures forall i :: 0 <= i < |frames| ==> FrameKept(frames, held, i, policy.floor)
      ensures hits == TotalHits(frames, held, warmup, |frames|) && active == TotalActive(frames, warmup, |frames|)
      ensures base == |held[if warmup < |frames| then warmup else |frames|]|
      ensures promotions - evictions == |mirror| - base
    {
      held := [{}];
      OwnedAreCached(n, View());
      for i := 0 to |frames|
        invariant Valid() && past == frames[..i] && Recorded(frames, held, i, policy.floor, warmup, mirror.Keys, hits, active)
        invariant i <= warmup ==> promotions == 0 && evictions == 0 && base == |mirror.Keys|
        invariant warmup <= i ==> base == |held[warmup]|
      {
        held := RunFrame(frames, i, warmup, held);
      }
      assert frames[..|frames|] == frames;
      OwnedAreCached(n, View());
    }

    method RunFrame(frames: seq<Frame>, i: nat, warmup: nat, ghost held: seq<set<Pair>>) returns (ghost held2: seq<set<Pair>>)
      requires i < |frames| && Distinct(frames[i].pairs) && Valid() && past == frames[..i]
      requires Recorded(frames, held, i, policy.floor, warmup, mirror.Keys, hits, active)
      requires i <= warmup ==> promotions == 0 && evictions == 0 && base == |mirror.Keys|
      requires warmup <= i ==> base == |held[warmup]|
      modifies this
      ensures Valid() && past == frames[..i + 1] && Recorded(frames, held2, i + 1, policy.floor, warmup, mirror.Keys, hits, active)
      ensures i + 1 <= warmup ==> promotions == 0 && evictions == 0 && base == |mirror.Keys|
      ensures warmup <= i + 1 ==> base == |held2[warmup]|
    {
      ghost var was, hits0, active0 := View(), hits, active;
      assert frames[..i + 1] == frames[..i] + [frames[i]];
      ghost var ordered, log := Step(frames[i], i >= warmup);
      held2 := held + [mirror.Keys];
      FrameRecorded(frames, held, i, warmup, n, was, View(), policy, freq, ordered, log, hits0, active0);
    }
  }

  lemma CachedIsRouted(n: nat, t: Tables, freq: map<Pair, nat>, past: seq<Frame>)
    requires Shape(n, t, {}) && History(t.owner, freq, past)
    ensures AllRouted(past, t.mirror.Keys)
  {
    assert Open(0);
    forall q | q in t.mirror
      ensures Routed(past, q)
    {
      assert t.owner[t.mirror[q]].pair == q;
    }
  }

  /** What the closed invariant says, in every state a run reaches between frames. */
  lemma Invariant(s: Simulator)
    requires s.Valid()
    ensures Inverse(s.View()) && Partition(s.n, s.View()) && |s.mirror| + |s.free| == s.n
    ensures forall l :: Get(s.layers, l) == |Cached(s.mirror, l)|
    ensures s.policy.cap.Some? ==> forall l :: Get(s.layers, l) <= s.policy.cap.value
    ensures forall p :: p in s.mirror ==> s.owner[s.mirror[p]].seen == LastTick(s.past, p)
    ensures forall p :: Get(s.freq, p) == Times(s.past, p)
    ensures s.promotions - s.evictions == |s.mirror| - s.base && |s.colds| == s.evictions
  {
    ShapeOpens(s.n, s.View(), {});
    OwnedAreCached(s.n, s.View());
    assert Open(0);
    forall l: nat
      ensures Get(s.layers, l) == |Cached(s.mirror, l)|
    {
      assert Get(s.layers, l) == |SlotsOf(s.owner, l)|;
      LayersCached(s.View(), l);
    }
  }

  ghost function Cached(mirror: map<Pair, nat>, l: nat): set<Pair> { set p | p in mirror && p.layer == l }

  /** The slots the mirror gives to some pairs. */
  ghost function Homes(mirror: map<Pair, nat>, pairs: set<Pair>): set<nat>
    requires pairs <= mirror.Keys
  {
    set p | p in pairs :: mirror[p]
  }

  lemma {:induction false} HomesCount(t: Tables, pairs: set<Pair>)
    requires Inverse(t) && pairs <= t.mirror.Keys
    ensures |Homes(t.mirror, pairs)| == |pairs|
  {
    if p :| p in pairs {
      HomesCount(t, pairs - {p});
      var rest := Homes(t.mirror, pairs - {p});
      assert Homes(t.mirror, pairs) == rest + {t.mirror[p]};
      forall q | q in pairs - {p}
        ensures t.mirror[q] != t.mirror[p]
      {
        assert t.owner[t.mirror[q]].pair == q;
      }
      assert t.mirror[p] !in rest;
    }
  }

  /** With inverse tables a layer's slots are as many as its cached pairs. */
  lemma LayersCached(t: Tables, l: nat)
    requires Inverse(t)
    ensures |SlotsOf(t.owner, l)| == |Cached(t.mirror, l)|
  {
    HomesCount(t, Cached(t.mirror, l));
    assert SlotsOf(t.owner, l) == Homes(t.mirror, Cached(t.mirror, l));
  }

  // ------------------------------------------------------------------ frames that repeat a pair

  /** What the closed outcome of a frame says. */
  lemma FrameOpens(t0: Tables, t: Tables, pol: Policy, u: Turn, past: seq<Frame>, ordered: seq<Pair>, log: seq<Decision>)
    requires FrameDone(t0, t, pol, u, past, ordered, log)
    ensures PlacesRight(t0, pol, u, ordered, log) && Keeps(t0.mirror, t.mirror, past, u, pol.floor)
    ensures forall p :: p in t.mirror ==> p in t0.mirror || p in Placements(log)
    ensures forall p :: p in Placements(log) ==> p in t.mirror && p in u.seen && p !in t0.mirror
  {
    assert Open(0);
  }

  /** A frame leaves the tables inverse exactly when it places no pair twice. Without a cap those are the first candidates, as
      many as the budget and the free and evictable slots before the frame allow; with free slots for the whole budget, the
      ones the layer counts before the frame admit. */
  lemma InverseExactly(t0: Tables, t: Tables, pol: Policy, u: Turn, past: seq<Frame>, ordered: seq<Pair>, log: seq<Decision>)
    requires FrameDone(t0, t, pol, u, past, ordered, log)
    ensures Inverse(t) <==> Distinct(Placements(log))
    ensures pol.cap.None? ==> (Inverse(t) <==> Distinct(ordered[..Quota(|ordered|, pol.promote, Room(t0, u, pol.floor))]))
    ensures pol.promote <= |t0.free| ==> (Inverse(t) <==> Distinct(Greedy(t0.layers, pol.cap, ordered, pol.promote)))
  {
    assert Open(0);
  }

  lemma TwiceOrdered(p: Pair, ordered: seq<Pair>)
    requires multiset(ordered) == multiset([p, p])
    ensures ordered == [p, p]
  {
    assert |ordered| == |multiset(ordered)|;
    SameElements(ordered, [p, p]);
    assert ordered[0] in ordered && ordered[1] in ordered;
  }

  lemma TwiceBreaks(t0: Tables, t: Tables, pol: Policy, u: Turn, past: seq<Frame>, ordered: seq<Pair>, log: seq<Decision>, p: Pair)
    requires FrameDone(t0, t, pol, u, past, ordered, log) && multiset(ordered) == multiset([p, p])
    requires |t0.free| >= 2 && pol.promote >= 2 && pol.cap.None?
    ensures !Inverse(t)
  {
    TwiceOrdered(p, ordered);
    InverseExactly(t0, t, pol, u, past, ordered, log);
    var placed := ordered[..Quota(|ordered|, pol.promote, Room(t0, u, pol.floor))];
    assert placed[0] == placed[1];
  }

  /** A simulator brought out of order: the first frame lists an uncached pair twice, and two slots have the same owner. */
  method RepeatedPair(n: nat, pol: Policy, p: Pair, tick: int) returns (s: Simulator)
    requires n >= 2 && pol.promote >= 2 && pol.threshold <= 1 && pol.cap.None?
    ensures fresh(s) && s.n == n && s.policy == pol && s.past == [Frame(tick, [p, p])] && !Inverse(s.View())
  {
    s := new Simulator(n, pol);
    var f := Frame(tick, [p, p]);
    ghost var t0 := s.View();
    TwiceListed(p, t0, pol, s.freq);
    ghost var ordered, log := s.Step(f, false);
    TwiceBreaks(t0, s.View(), pol, Turn(s.freq, SetOf(f.pairs), tick), s.past, ordered, log, p);
  }

  lemma TwiceListed(p: Pair, t: Tables, pol: Policy, freq: map<Pair, nat>)
    requires t.mirror == map[] && pol.threshold <= 1
    ensures Candidates([p, p], t.mirror, freq, pol.threshold) == [p, p]
  {
    assert [p, p][..1] == [p] && [p][..0] == [];
    CandidatesNext([], p, t.mirror, freq, pol.threshold);
    CandidatesNext([p], p, t.mirror, freq, pol.threshold);
    assert [] + [p] == [p] && [p] + [p] == [p, p];
  }

  // ------------------------------------------------------------------ whole runs

  /** Frame i keeps its own pairs and those last routed less than floor ticks before it; everything cached has been routed. */
  ghost predicate FrameKept(frames: seq<Frame>, held: seq<set<Pair>>, i: nat, floor: int)
    requires i < |frames|
  {
    && i + 1 < |held|
    && (forall q :: q in held[i] && (q in frames[i].pairs || frames[i].tick - LastTick(frames[..i + 1], q) < floor) ==> q in held[i + 1])
    && AllRouted(frames[..i + 1], held[i + 1])
  }

  ghost predicate AllRouted(past: seq<Frame>, held: set<Pair>) { forall q :: q in held ==> Routed(past, q) }

  /** The record of the first i frames. */
  ghost predicate Recorded(frames: seq<Frame>, held: seq<set<Pair>>, i: nat, floor: int, warmup: nat, now: set<Pair>, hits: nat, active: nat)
    requires i <= |frames|
  {
    && |held| == i + 1 && held[0] == {} && held[i] == now
    && (forall j :: 0 <= j < i ==> FrameKept(frames, held, j, floor))
    && hits == TotalHits(frames, held, warmup, i) && active == TotalActive(frames, warmup, i)
  }

  /** Activations of scored frames that were cached when their frame began. */
  ghost function TotalHits(frames: seq<Frame>, held: seq<set<Pair>>, warmup: nat, k: nat): nat
    requires k <= |frames| && k <= |held|
  {
    if k == 0 then 0 else TotalHits(frames, held, warmup, k - 1) + if k - 1 >= warmup then Hits(frames[k - 1].pairs, held[k - 1]) else 0
  }

  ghost function TotalActive(frames: seq<Frame>, warmup: nat, k: nat): nat
    requires k <= |frames|
  {
    if k == 0 then 0 else TotalActive(frames, warmup, k - 1) + if k - 1 >= warmup then |frames[k - 1].pairs| else 0
  }

  lemma {:induction false} TotalHitsSame(frames: seq<Frame>, a: seq<set<Pair>>, b: seq<set<Pair>>, warmup: nat, k: nat)
    requires k <= |frames| && k <= |a| <= |b| && forall i :: 0 <= i < k ==> a[i] == b[i]
    ensures TotalHits(frames, a, warmup, k) == TotalHits(frames, b, warmup, k)
  {
    if k > 0 {
      TotalHitsSame(frames, a, b, warmup, k - 1);
    }
  }

  lemma KeptNext(frames: seq<Frame>, before: seq<set<Pair>>, held: seq<set<Pair>>, i: nat, floor: int,
                 m: map<Pair, nat>, m2: map<Pair, nat>, freq: map<Pair, nat>)
    requires i < |frames| && |before| == i + 1 && held == before + [m2.Keys] && before[i] == m.Keys
    requires forall j :: 0 <= j < i ==> FrameKept(frames, before, j, floor)
    requires Keeps(m, m2, frames[..i + 1], Turn(freq, SetOf(frames[i].pairs), frames[i].tick), floor) && AllRouted(frames[..i + 1], m2.Keys)
    ensures forall j :: 0 <= j <= i ==> FrameKept(frames, held, j, floor)
  {
    forall j | 0 <= j < i
      ensures FrameKept(frames, held, j, floor)
    {
      assert FrameKept(frames, before, j, floor);
    }
    forall q | q in held[i] && (q in frames[i].pairs || frames[i].tick - LastTick(frames[..i + 1], q) < floor)
      ensures q in held[i + 1]
    {
      assert Safe(frames[..i + 1], Turn(freq, SetOf(frames[i].pairs), frames[i].tick), floor, q);
    }
  }

  lemma RecordNext(frames: seq<Frame>, held: seq<set<Pair>>, i: nat, floor: int, warmup: nat,
                   m: map<Pair, nat>, m2: map<Pair, nat>, freq: map<Pair, nat>, hits: nat, active: nat)
    requires i < |frames| && Recorded(frames, held, i, floor, warmup, m.Keys, hits, active)
    requires Keeps(m, m2, frames[..i + 1], Turn(freq, SetOf(frames[i].pairs), frames[i].tick), floor) && AllRouted(frames[..i + 1], m2.Keys)
    ensures Recorded(frames, held + [m2.Keys], i + 1, floor, warmup, m2.Keys,
                     hits + (if i >= warmup then Hits(frames[i].pairs, m.Keys) else 0), active + if i >= warmup then |frames[i].pairs| else 0)
  {
    KeptNext(frames, held, held + [m2.Keys], i, floor, m, m2, freq);
    TotalHitsSame(frames, held, held + [m2.Keys], warmup, i);
  }

  lemma FrameRecorded(frames: seq<Frame>, held: seq<set<Pair>>, i: nat, warmup: nat, n: nat, t0: Tables, t: Tables, pol: Policy, freq: map<Pair, nat>,
                      ordered: seq<Pair>, log: seq<Decision>, hits: nat, active: nat)
    requires i < |frames| && Recorded(frames, held, i, pol.floor, warmup, t0.mirror.Keys, hits, active)
    requires Shape(n, t, {}) && History(t.owner, freq, frames[..i + 1])
    requires FrameDone(t0, t, pol, Turn(freq, SetOf(frames[i].pairs), frames[i].tick), frames[..i + 1], ordered, log)
    ensures Recorded(frames, held + [t.mirror.Keys], i + 1, pol.floor, warmup, t.mirror.Keys,
                     hits + (if i >= warmup then Hits(frames[i].pairs, t0.mirror.Keys) else 0), active + if i >= warmup then |frames[i].pairs| else 0)
    ensures |t.slots| == |t.mirror.Keys|
  {
    CachedIsRouted(n, t, freq, frames[..i + 1]);
    FrameOpens(t0, t, pol, Turn(freq, SetOf(frames[i].pairs), frames[i].tick), frames[..i + 1], ordered, log);
    RecordNext(frames, held, i, pol.floor, warmup, t0.mirror, t.mirror, freq, hits, active);
    OwnedAreCached(n, t);
    assert |t.mirror.Keys| == |t.mirror|;
  }

  ghost predicate Ascending(frames: seq<Frame>) { forall i, j :: 0 <= i < j < |frames| ==> frames[i].tick < frames[j].tick }

  lemma PrefixNext(frames: seq<Frame>, k: nat, q: Pair)
    requires k < |frames|
    ensures LastTick(frames[..k + 1], q) == if q in frames[k].pairs then frames[k].tick else LastTick(frames[..k], q)
    ensures Routed(frames[..k + 1], q) <==> q in frames[k].pairs || Routed(frames[..k], q)
  {
    assert frames[..k + 1] == frames[..k] + [frames[k]];
    PastNext(frames[..k], frames[k], q);
  }

  /** The latest routed tick of a routed pair is the tick of an earlier frame. */
  lemma {:induction false} LastTickBelow(frames: seq<Frame>, k: nat, q: Pair)
    requires Ascending(frames) && k < |frames| && Routed(frames[..k], q)
    ensures LastTick(frames[..k], q) < frames[k].tick
  {
    if k > 0 {
      PrefixNext(frames, k - 1, q);
      if q !in frames[k - 1].pairs {
        LastTickBelow(frames, k - 1, q);
      }
    }
  }

  /** A pair cached after frame i stays cached through every frame up to j while frame j's tick is less than floor ticks after
      the pair was last routed. */
  lemma {:induction false} StaysCached(frames: seq<Frame>, held: seq<set<Pair>>, floor: int, q: Pair, i: nat, j: nat)
    requires Ascending(frames) && |held| == |frames| + 1 && i <= j < |frames|
    requires forall k :: 0 <= k < |frames| ==> FrameKept(frames, held, k, floor)
    requires q in held[i + 1] && frames[j].tick < LastTick(frames[..i + 1], q) + floor
    ensures q in held[j + 1] && Routed(frames[..j + 1], q) && LastTick(frames[..j + 1], q) >= LastTick(frames[..i + 1], q)
    decreases j
  {
    assert FrameKept(frames, held, j, floor) && FrameKept(frames, held, i, floor);
    if i < j {
      assert frames[j - 1].tick < frames[j].tick;
      StaysCached(frames, held, floor, q, i, j - 1);
      PrefixNext(frames, j, q);
      LastTickBelow(frames, j, q);
    }
  }
}
