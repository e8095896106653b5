/** A frame's promotions in the delta-cache simulator: the victims, the slot each candidate gets, the loop over the candidates
    as a function of the tables, and what it keeps. */
module DeltaPromotion {
  import opened Options
  import opened DeltaOrder

  /** The owner of a slot and the tick it was last routed at. */
  datatype Entry = Entry(pair: Pair, seen: int)

  datatype Frame = Frame(tick: int, pairs: seq<Pair>)

  datatype Evict = Lru | Lfu | LfuAged

  datatype Policy = Policy(promote: int, floor: int, order: Order, evict: Evict, threshold: int, cap: Option<nat>)

  /** What a frame's decisions are taken from, besides the tables: the frequencies, its pairs and its tick. */
  datatype Turn = Turn(freq: map<Pair, nat>, seen: set<Pair>, tick: int)

  /** slots are the keys of the owner table in insertion order. */
  datatype Tables = Tables(mirror: map<Pair, nat>, owner: map<nat, Entry>, slots: seq<nat>, free: seq<nat>, layers: map<nat, nat>)

  /** What becomes of a candidate: passed over at its layer's cap, or placed in a slot that was free or whose owner leaves. */
  datatype Decision = Skip(pair: Pair) | Place(pair: Pair, slot: nat, leaves: Option<Entry>)

  function SetOf(pairs: seq<Pair>): set<Pair> { set p | p in pairs }

  // ------------------------------------------------------------------ victims

  /** Victim keys, compared lexicographically. The one-element key of lru is (seen, seen) here. */
  function Key(evict: Evict, freq: nat, seen: int, tick: int): (real, int) {
    match evict
    case Lru => (seen as real, seen)
    case Lfu => (freq as real, seen)
    case LfuAged => (freq as real - 0.01 * tick as real, seen)
  }

  predicate Below(a: (real, int), b: (real, int)) { a.0 < b.0 || (a.0 == b.0 && a.1 < b.1) }

  predicate Eligible(e: Entry, u: Turn, floor: int) { e.pair !in u.seen && u.tick - e.seen >= floor }

  function KeyOf(evict: Evict, e: Entry, u: Turn): (real, int) { Key(evict, Get(u.freq, e.pair), e.seen, u.tick) }

  /** A smaller key goes first; of equal ones the slot that comes first in slot order, which is descending. */
  predicate Beats(owner: map<nat, Entry>, evict: Evict, u: Turn, s: nat, t: nat)
    requires s in owner && t in owner
  {
    var a, b := KeyOf(evict, owner[s], u), KeyOf(evict, owner[t], u);
    Below(a, b) || (a == b && t < s)
  }

  ghost predicate IsVictim(owner: map<nat, Entry>, evict: Evict, floor: int, u: Turn, s: nat) {
    && s in owner && Eligible(owner[s], u, floor)
    && forall t :: t in owner && t != s && Eligible(owner[t], u, floor) ==> Beats(owner, evict, u, s, t)
  }

  lemma VictimUnique(owner: map<nat, Entry>, evict: Evict, floor: int, u: Turn, s: nat, t: nat)
    requires IsVictim(owner, evict, floor, u, s) && IsVictim(owner, evict, floor, u, t)
    ensures s == t
  {
  }

  /** lru: of the owners that are neither listed nor routed less than floor ticks ago, s has the earliest tick, the slot that
      comes first of equal ones. */
  lemma LruVictim(owner: map<nat, Entry>, floor: int, u: Turn, s: nat)
    ensures IsVictim(owner, Lru, floor, u, s) <==>
      && s in owner && owner[s].pair !in u.seen && u.tick - owner[s].seen >= floor
      && forall t :: t in owner && owner[t].pair !in u.seen && u.tick - owner[t].seen >= floor ==>
           owner[s].seen < owner[t].seen || (owner[s].seen == owner[t].seen && t <= s)
  {
  }

  /** lfu and lfu_aged: the least frequency, of equal ones the earliest tick, then the slot that comes first. */
  lemma LfuVictim(owner: map<nat, Entry>, evict: Evict, floor: int, u: Turn, s: nat)
    requires evict != Lru
    ensures IsVictim(owner, evict, floor, u, s) <==>
      && s in owner && owner[s].pair !in u.seen && u.tick - owner[s].seen >= floor
      && forall t :: t in owner && owner[t].pair !in u.seen && u.tick - owner[t].seen >= floor ==>
           var a, b := Get(u.freq, owner[s].pair), Get(u.freq, owner[t].pair);
           a < b || (a == b && (owner[s].seen < owner[t].seen || (owner[s].seen == owner[t].seen && t <= s)))
  {
  }

  /** The decay of lfu_aged is the same for every slot of one call, so it never changes the choice lfu makes. */
  lemma AgeingChangesNothing(owner: map<nat, Entry>, floor: int, u: Turn, s: nat)
    ensures IsVictim(owner, LfuAged, floor, u, s) <==> IsVictim(owner, Lfu, floor, u, s)
  {
    forall t, v | t in owner && v in owner
      ensures Beats(owner, LfuAged, u, t, v) <==> Beats(owner, Lfu, u, t, v)
    {
    }
  }

  /** The scan of victim() over the first i slots. */
  function Scan(t: Tables, pol: Policy, u: Turn, i: nat): (best: Option<nat>)
    requires i <= |t.slots|
    ensures best.Some? ==> best.value in t.owner
  {
    if i == 0 then None
    else
      var best, s := Scan(t, pol, u, i - 1), t.slots[i - 1];
      if s !in t.owner || !Eligible(t.owner[s], u, pol.floor) then best
      else if best.None? || Below(KeyOf(pol.evict, t.owner[s], u), KeyOf(pol.evict, t.owner[best.value], u)) then Some(s)
      else best
  }

  /** The scan finds the victim among the slots it has seen. */
  lemma {:induction false} ScanIs(n: nat, t: Tables, pol: Policy, u: Turn, i: nat)
    requires Partition(n, t) && i <= |t.slots|
    ensures var best := Scan(t, pol, u, i);
      if best.None? then forall s :: s in t.owner && s >= n - i ==> !Eligible(t.owner[s], u, pol.floor)
      else
        && n - i <= best.value && Eligible(t.owner[best.value], u, pol.floor)
        && forall s :: s in t.owner && s >= n - i && s != best.value && Eligible(t.owner[s], u, pol.floor) ==>
             Beats(t.owner, pol.evict, u, best.value, s)
  {
    if i > 0 {
      ScanIs(n, t, pol, u, i - 1);
    }
  }

  // ------------------------------------------------------------------ one candidate

  /** A slot for a candidate: the last free one, or the victim's. */
  function SlotFor(t: Tables, pol: Policy, u: Turn): Option<nat> {
    if t.free != [] then Some(t.free[|t.free| - 1]) else Scan(t, pol, u, |t.slots|)
  }

  /** Who leaves the slot. */
  function Leaves(t: Tables, s: nat): Option<Entry> { if t.free == [] && s in t.owner then Some(t.owner[s]) else None }

  function Less(n: nat): nat { if n == 0 then 0 else n - 1 }

  /** The slot is off the free list, or its owner's pair is dropped. */
  function Emptied(t: Tables, s: nat): Tables {
    if t.free != [] then t.(free := t.free[..|t.free| - 1])
    else if s in t.owner then
      var q := t.owner[s].pair;
      t.(mirror := t.mirror - {q}, layers := t.layers[q.layer := Less(Get(t.layers, q.layer))])
    else t
  }

  function Filled(t: Tables, p: Pair, s: nat, tick: int): Tables {
    Tables(t.mirror[p := s], t.owner[s := Entry(p, tick)], if s in t.owner then t.slots else t.slots + [s], t.free,
           t.layers[p.layer := Get(t.layers, p.layer) + 1])
  }

  function Replaced(t: Tables, p: Pair, s: nat, tick: int): Tables { Filled(Emptied(t, s), p, s, tick) }

  predicate Full(t: Tables, cap: Option<nat>, p: Pair) { cap.Some? && Get(t.layers, p.layer) >= cap.value }

  /** The promotion loop from its n-th placement on: the tables it leaves and the decisions it takes. */
  function Decide(t: Tables, pol: Policy, u: Turn, ordered: seq<Pair>, n: nat): (Tables, seq<Decision>)
    decreases |ordered|
  {
    if ordered == [] || n >= pol.promote then (t, [])
    else
      var p := ordered[0];
      if Full(t, pol.cap, p) then
        var r := Decide(t, pol, u, ordered[1..], n);
        (r.0, [Skip(p)] + r.1)
      else
        var s := SlotFor(t, pol, u);
        if s.None? then (t, [])
        else
          var r := Decide(Replaced(t, p, s.value, u.tick), pol, u, ordered[1..], n + 1);
          (r.0, [Place(p, s.value, Leaves(t, s.value))] + r.1)
  }

  function Asked(log: seq<Decision>): seq<Pair> { seq(|log|, i requires 0 <= i < |log| => log[i].pair) }

  /** The pairs placed. */
  function Placements(log: seq<Decision>): seq<Pair> {
    if log == [] then [] else (if log[0].Place? then [log[0].pair] else []) + Placements(log[1..])
  }

  /** How long the pairs that had to leave had been cold. */
  function ColdsOf(log: seq<Decision>, tick: int): seq<int> {
    if log == [] then []
    else (if log[0].Place? then ColdOf(log[0].leaves, tick) else []) + ColdsOf(log[1..], tick)
  }

  function ColdOf(e: Option<Entry>, tick: int): seq<int> { if e.Some? then [tick - e.value.seen] else [] }

  // ------------------------------------------------------------------ the tables

  /** Mirror and owner are inverse to each other. */
  ghost predicate Inverse(t: Tables) {
    && (forall p :: p in t.mirror ==> t.mirror[p] in t.owner && t.owner[t.mirror[p]].pair == p)
    && (forall s :: s in t.owner ==> t.owner[s].pair in t.mirror && t.mirror[t.owner[s].pair] == s)
  }

  /** ... but for pairs of the present frame, which may own a slot the mirror no longer points to. */
  ghost predicate Paired(t: Tables, seen: set<Pair>) {
    && (forall p :: p in t.mirror ==> t.mirror[p] in t.owner && t.owner[t.mirror[p]].pair == p)
    && (forall s :: s in t.owner ==> t.owner[s].pair in t.mirror && (t.owner[s].pair !in seen ==> t.mirror[t.owner[s].pair] == s))
  }

  /** Slots are taken from the end of the free list, so the free ones are 0 .. |free| - 1 and the owner table's keys, in
      insertion order, n - 1 down to |free|. */
  ghost predicate Partition(n: nat, t: Tables) {
    && |t.free| + |t.slots| == n
    && (forall i :: 0 <= i < |t.free| ==> t.free[i] == i)
    && (forall i :: 0 <= i < |t.slots| ==> t.slots[i] == n - 1 - i)
    && forall s :: s in t.owner <==> |t.free| <= s < n
  }

  /** The parts of the invariant open only where Open is mentioned. */
  ghost predicate Open(k: int) { true }

  ghost predicate Shape(n: nat, t: Tables, seen: set<Pair>) {
    forall k {:trigger Open(k)} :: k == 0 ==> Partition(n, t) && Paired(t, seen)
  }

  /** The slots of a layer. */
  ghost function SlotsOf(owner: map<nat, Entry>, l: nat): set<nat> { set s | s in owner && owner[s].pair.layer == l }

  ghost predicate LayersCounted(owner: map<nat, Entry>, layers: map<nat, nat>) {
    forall l {:trigger Get(layers, l)} :: Get(layers, l) == |SlotsOf(owner, l)|
  }

  ghost predicate Capped(layers: map<nat, nat>, cap: Option<nat>) { cap.Some? ==> forall l :: Get(layers, l) <= cap.value }

  ghost predicate Load(owner: map<nat, Entry>, layers: map<nat, nat>, cap: Option<nat>) {
    forall k {:trigger Open(k)} :: k == 0 ==> LayersCounted(owner, layers) && Capped(layers, cap)
  }

  lemma ShapeOpens(n: nat, t: Tables, seen: set<Pair>)
    requires Shape(n, t, seen)
    ensures Partition(n, t) && Paired(t, seen)
  {
    assert Open(0);
  }

  /** Without a repeated placement nothing is left over from the frame. */
  lemma InverseIsShape(n: nat, t: Tables, seen: set<Pair>)
    requires Shape(n, t, seen)
    ensures Inverse(t) <==> Shape(n, t, {})
  {
    assert Open(0);
  }

  lemma ShapeWeakens(n: nat, t: Tables, seen: set<Pair>)
    requires Shape(n, t, {})
    ensures Shape(n, t, seen)
  {
    assert Open(0);
  }

  lemma SlotIsVictim(n: nat, t: Tables, pol: Policy, u: Turn)
    requires Shape(n, t, u.seen) && t.free == []
    ensures var s := SlotFor(t, pol, u);
      if s.Some? then IsVictim(t.owner, pol.evict, pol.floor, u, s.value) else forall s :: s in t.owner ==> !Eligible(t.owner[s], u, pol.floor)
  {
    ShapeOpens(n, t, u.seen);
    ScanIs(n, t, pol, u, |t.slots|);
  }

  /** A free slot filled. */
  lemma FreeKeepsShape(n: nat, t: Tables, seen: set<Pair>, p: Pair, s: nat, tick: int)
    requires Shape(n, t, seen) && t.free != [] && s == t.free[|t.free| - 1] && p in seen
    ensures Shape(n, Replaced(t, p, s, tick), seen) && s !in t.owner
  {
    assert Open(0);
  }

  /** A victim's slot filled. */
  lemma VictimKeepsShape(n: nat, t: Tables, seen: set<Pair>, p: Pair, s: nat, tick: int)
    requires Shape(n, t, seen) && t.free == [] && s in t.owner && t.owner[s].pair !in seen && p in seen
    ensures Shape(n, Replaced(t, p, s, tick), seen)
  {
    assert Open(0);
    var r := Replaced(t, p, s, tick);
    assert Partition(n, r);
    forall q | q in r.mirror
      ensures r.mirror[q] in r.owner && r.owner[r.mirror[q]].pair == q
    {
      if q != p {
        assert t.owner[t.mirror[q]].pair == q;
      }
    }
    forall i | i in r.owner
      ensures r.owner[i].pair in r.mirror && (r.owner[i].pair !in seen ==> r.mirror[r.owner[i].pair] == i)
    {
      if i != s {
        assert t.owner[i].pair in t.mirror;
      }
    }
  }

  lemma FillShape(n: nat, t: Tables, pol: Policy, u: Turn, p: Pair, s: nat)
    requires Shape(n, t, u.seen) && SlotFor(t, pol, u) == Some(s) && p in u.seen
    ensures Shape(n, Replaced(t, p, s, u.tick), u.seen)
  {
    if t.free != [] {
      FreeKeepsShape(n, t, u.seen, p, s, u.tick);
    } else {
      SlotIsVictim(n, t, pol, u);
      VictimKeepsShape(n, t, u.seen, p, s, u.tick);
    }
  }

  /** A second placement of a pair leaves its first slot behind. */
  lemma RepeatBreaks(n: nat, t: Tables, pol: Policy, u: Turn, p: Pair, s: nat)
    requires Shape(n, t, u.seen) && SlotFor(t, pol, u) == Some(s) && p in u.seen && p in t.mirror
    ensures !Inverse(Replaced(t, p, s, u.tick))
  {
    ShapeOpens(n, t, u.seen);
    if t.free == [] {
      SlotIsVictim(n, t, pol, u);
    }
    var r, i := Replaced(t, p, s, u.tick), t.mirror[p];
    assert i in r.owner && r.owner[i].pair == p && r.mirror[p] == s != i;
  }

  /** What is left behind stays so through the frame. */
  lemma BrokenStays(n: nat, t: Tables, pol: Policy, u: Turn, p: Pair, s: nat)
    requires Shape(n, t, u.seen) && SlotFor(t, pol, u) == Some(s) && p in u.seen && p !in t.mirror && !Inverse(t)
    ensures !Inverse(Replaced(t, p, s, u.tick))
  {
    ShapeOpens(n, t, u.seen);
    if t.free == [] {
      SlotIsVictim(n, t, pol, u);
    }
    var r := Replaced(t, p, s, u.tick);
    var i :| i in t.owner && t.mirror[t.owner[i].pair] != i;
    assert i in r.owner && r.owner[i] == t.owner[i] && r.mirror[r.owner[i].pair] != i;
  }

  lemma InverseStays(n: nat, t: Tables, pol: Policy, u: Turn, p: Pair, s: nat)
    requires Shape(n, t, u.seen) && SlotFor(t, pol, u) == Some(s) && p in u.seen && p !in t.mirror && Inverse(t)
    ensures Inverse(Replaced(t, p, s, u.tick))
  {
    if t.free == [] {
      SlotIsVictim(n, t, pol, u);
    }
    FillShape(n, t, pol, u, p, s);
    ShapeOpens(n, Replaced(t, p, s, u.tick), u.seen);
  }

  lemma FillInverse(n: nat, t: Tables, pol: Policy, u: Turn, p: Pair, s: nat)
    requires Shape(n, t, u.seen) && SlotFor(t, pol, u) == Some(s) && p in u.seen
    ensures Inverse(Replaced(t, p, s, u.tick)) <==> Inverse(t) && p !in t.mirror
  {
    if p in t.mirror {
      RepeatBreaks(n, t, pol, u, p, s);
    } else if Inverse(t) {
      InverseStays(n, t, pol, u, p, s);
    } else {
      BrokenStays(n, t, pol, u, p, s);
    }
  }

  /** Pairs of the frame stay cached. */
  lemma FillCaches(n: nat, t: Tables, pol: Policy, u: Turn, p: Pair, s: nat)
    requires Shape(n, t, u.seen) && SlotFor(t, pol, u) == Some(s)
    ensures forall q :: q in u.seen ==> (q in Replaced(t, p, s, u.tick).mirror <==> q in t.mirror || q == p)
    ensures forall q :: q in Replaced(t, p, s, u.tick).mirror ==> q in t.mirror || q == p
  {
    if t.free == [] {
      SlotIsVictim(n, t, pol, u);
    }
  }

  /** Layer counts follow the owner table. */
  lemma OwnerSet(owner: map<nat, Entry>, s: nat, e: Entry, l: nat)
    ensures |SlotsOf(owner[s := e], l)|
         == |SlotsOf(owner, l)| - (if s in owner && owner[s].pair.layer == l then 1 else 0) + if e.pair.layer == l then 1 else 0
    ensures s in owner && owner[s].pair.layer == l ==> |SlotsOf(owner, l)| > 0
  {
    var rest := SlotsOf(owner, l) - {s};
    assert SlotsOf(owner[s := e], l) == if e.pair.layer == l then rest + {s} else rest;
    assert s in SlotsOf(owner, l) <==> s in owner && owner[s].pair.layer == l;
  }

  lemma LeaverCounted(owner: map<nat, Entry>, layers: map<nat, nat>, cap: Option<nat>, s: nat)
    requires Load(owner, layers, cap) && s in owner
    ensures Get(layers, owner[s].pair.layer) > 0
  {
    assert Open(0);
    var l := owner[s].pair.layer;
    assert Get(layers, l) == |SlotsOf(owner, l)| && s in SlotsOf(owner, l);
  }

  lemma FillLoad(n: nat, t: Tables, pol: Policy, u: Turn, p: Pair, s: nat)
    requires Shape(n, t, u.seen) && SlotFor(t, pol, u) == Some(s) && Load(t.owner, t.layers, pol.cap) && !Full(t, pol.cap, p)
    ensures var r := Replaced(t, p, s, u.tick); Load(r.owner, r.layers, pol.cap)
  {
    assert Open(0);
    var r := Replaced(t, p, s, u.tick);
    if s in t.owner {
      LeaverCounted(t.owner, t.layers, pol.cap, s);
    }
    forall l: nat
      ensures Get(r.layers, l) == |SlotsOf(r.owner, l)| && (pol.cap.Some? ==> Get(r.layers, l) <= pol.cap.value)
    {
      OwnerSet(t.owner, s, Entry(p, u.tick), l);
      assert Get(t.layers, l) == |SlotsOf(t.owner, l)|;
      assert Get(t.layers, p.layer) == |SlotsOf(t.owner, p.layer)|;
    }
  }

  // ------------------------------------------------------------------ what has been routed so far

  ghost predicate Routed(past: seq<Frame>, p: Pair) { exists i :: 0 <= i < |past| && p in past[i].pairs }

  /** The tick of the latest frame that routes p. */
  ghost function LastTick(past: seq<Frame>, p: Pair): int {
    if past == [] then 0 else if p in past[|past| - 1].pairs then past[|past| - 1].tick else LastTick(past[..|past| - 1], p)
  }

  /** How often a frame lists p. */
  ghost function Listed(pairs: seq<Pair>, p: Pair): nat {
    if pairs == [] then 0 else Listed(pairs[..|pairs| - 1], p) + if pairs[|pairs| - 1] == p then 1 else 0
  }

  /** How often p has been routed. */
  ghost function Times(past: seq<Frame>, p: Pair): nat {
    if past == [] then 0 else Times(past[..|past| - 1], p) + Listed(past[|past| - 1].pairs, p)
  }

  ghost predicate SeenIsLast(owner: map<nat, Entry>, past: seq<Frame>) {
    forall s :: s in owner ==> Routed(past, owner[s].pair) && owner[s].seen == LastTick(past, owner[s].pair)
  }

  ghost predicate Counted(freq: map<Pair, nat>, past: seq<Frame>) { forall p {:trigger Get(freq, p)} :: Get(freq, p) == Times(past, p) }

  ghost predicate History(owner: map<nat, Entry>, freq: map<Pair, nat>, past: seq<Frame>) {
    forall k {:trigger Open(k)} :: k == 0 ==> SeenIsLast(owner, past) && Counted(freq, past)
  }

  /** q is routed in this frame or was last routed less than floor ticks ago. */
  ghost predicate Safe(past: seq<Frame>, u: Turn, floor: int, q: Pair) { q in u.seen || u.tick - LastTick(past, q) < floor }

  /** Every safe pair keeps its slot from m to m2. */
  ghost predicate Keeps(m: map<Pair, nat>, m2: map<Pair, nat>, past: seq<Frame>, u: Turn, floor: int) {
    forall q :: q in m && Safe(past, u, floor, q) ==> q in m2 && m2[q] == m[q]
  }

  /** The pairs cached before the frame are safe from its placements. */
  lemma FillKeeps(n: nat, was: map<Pair, nat>, t: Tables, pol: Policy, u: Turn, past: seq<Frame>, p: Pair, s: nat)
    requires Shape(n, t, u.seen) && SlotFor(t, pol, u) == Some(s) && History(t.owner, u.freq, past)
    requires Keeps(was, t.mirror, past, u, pol.floor) && p !in was
    ensures Keeps(was, Replaced(t, p, s, u.tick).mirror, past, u, pol.floor)
  {
    assert Open(0);
    if t.free == [] {
      SlotIsVictim(n, t, pol, u);
    }
  }

  lemma FillHistory(owner: map<nat, Entry>, freq: map<Pair, nat>, past: seq<Frame>, p: Pair, s: nat, tick: int)
    requires History(owner, freq, past) && Routed(past, p) && LastTick(past, p) == tick
    ensures History(owner[s := Entry(p, tick)], freq, past)
  {
    assert Open(0);
  }

  // ------------------------------------------------------------------ what the promotion loop does

  /** Candidates are routed in this frame and were not cached before it. */
  ghost predicate Fresh(ordered: seq<Pair>, was: map<Pair, nat>, u: Turn, past: seq<Frame>) {
    forall p :: p in ordered ==> p !in was && p in u.seen && Routed(past, p) && LastTick(past, p) == u.tick
  }

  /** Where the loop stands in a frame. */
  ghost predicate Going(n: nat, was: map<Pair, nat>, t: Tables, pol: Policy, u: Turn, past: seq<Frame>) {
    && Shape(n, t, u.seen) && Load(t.owner, t.layers, pol.cap) && History(t.owner, u.freq, past)
    && Keeps(was, t.mirror, past, u, pol.floor)
  }

  lemma FillGoes(n: nat, was: map<Pair, nat>, t: Tables, pol: Policy, u: Turn, past: seq<Frame>, p: Pair, s: nat)
    requires Going(n, was, t, pol, u, past) && Fresh([p], was, u, past) && SlotFor(t, pol, u) == Some(s) && !Full(t, pol.cap, p)
    ensures Going(n, was, Replaced(t, p, s, u.tick), pol, u, past)
  {
    assert p in [p];
    FillShape(n, t, pol, u, p, s);
    FillLoad(n, t, pol, u, p, s);
    FillHistory(t.owner, u.freq, past, p, s, u.tick);
    FillKeeps(n, was, t, pol, u, past, p, s);
  }

  /** The loop keeps the invariant of a frame. */
  lemma {:induction false} DecideGoes(n: nat, was: map<Pair, nat>, t: Tables, pol: Policy, u: Turn, past: seq<Frame>, ordered: seq<Pair>, k: nat)
    requires Going(n, was, t, pol, u, past) && Fresh(ordered, was, u, past)
    ensures Going(n, was, Decide(t, pol, u, ordered, k).0, pol, u, past)
    decreases |ordered|
  {
    if ordered != [] && k < pol.promote {
      var p, s := ordered[0], SlotFor(t, pol, u);
      if Full(t, pol.cap, p) {
        DecideGoes(n, was, t, pol, u, past, ordered[1..], k);
      } else if s.Some? {
        FillGoes(n, was, t, pol, u, past, p, s.value);
        DecideGoes(n, was, Replaced(t, p, s.value, u.tick), pol, u, past, ordered[1..], k + 1);
      }
    }
  }

  ghost predicate AllNew(pairs: seq<Pair>, m: map<Pair, nat>) { Distinct(pairs) && forall p :: p in pairs ==> p !in m }

  lemma AllNewFirst(p: Pair, rest: seq<Pair>, m: map<Pair, nat>, m2: map<Pair, nat>)
    requires forall q :: q in rest ==> (q in m2 <==> q in m || q == p)
    ensures AllNew([p] + rest, m) <==> p !in m && AllNew(rest, m2)
  {
    var all := [p] + rest;
    if AllNew(all, m) {
      assert all[0] == p;
      forall i, j | 0 <= i < j < |rest|
        ensures rest[i] != rest[j]
      {
        assert all[i + 1] == rest[i] && all[j + 1] == rest[j];
      }
      forall q | q in rest
        ensures q !in m2
      {
        var i :| 0 <= i < |rest| && rest[i] == q;
        assert all[i + 1] == q;
      }
    }
    if p !in m && AllNew(rest, m2) {
      assert p !in rest;
    }
  }

  lemma PlacementsNext(d: Decision, rest: seq<Decision>)
    ensures Placements([d] + rest) == if d.Place? then [d.pair] + Placements(rest) else Placements(rest)
  {
    assert ([d] + rest)[1..] == rest;
    assert [] + Placements(rest) == Placements(rest);
  }

  lemma DecideNext(t: Tables, pol: Policy, u: Turn, ordered: seq<Pair>, k: nat)
    requires ordered != [] && k < pol.promote
    ensures var p, s, log := ordered[0], SlotFor(t, pol, u), Decide(t, pol, u, ordered, k).1;
      if Full(t, pol.cap, p) then Placements(log) == Placements(Decide(t, pol, u, ordered[1..], k).1)
      else if s.None? then Placements(log) == []
      else Placements(log) == [p] + Placements(Decide(Replaced(t, p, s.value, u.tick), pol, u, ordered[1..], k + 1).1)
  {
    var p, s := ordered[0], SlotFor(t, pol, u);
    if Full(t, pol.cap, p) {
      PlacementsNext(Skip(p), Decide(t, pol, u, ordered[1..], k).1);
    } else if s.Some? {
      PlacementsNext(Place(p, s.value, Leaves(t, s.value)), Decide(Replaced(t, p, s.value, u.tick), pol, u, ordered[1..], k + 1).1);
    }
  }

  /** The tables stay inverse through a frame exactly when no pair is placed that is cached or has been placed in it. */
  lemma {:induction false} DecideInverse(n: nat, t: Tables, pol: Policy, u: Turn, ordered: seq<Pair>, k: nat)
    requires Shape(n, t, u.seen) && forall p :: p in ordered ==> p in u.seen
    ensures var r := Decide(t, pol, u, ordered, k); Inverse(r.0) <==> Inverse(t) && AllNew(Placements(r.1), t.mirror)
    ensures forall p :: p in Placements(Decide(t, pol, u, ordered, k).1) ==> p in u.seen
    decreases |ordered|
  {
    if ordered != [] && k < pol.promote {
      var p, s := ordered[0], SlotFor(t, pol, u);
      if Full(t, pol.cap, p) {
        DecideInverse(n, t, pol, u, ordered[1..], k);
        PlacementsNext(Skip(p), Decide(t, pol, u, ordered[1..], k).1);
      } else if s.Some? {
        var r := Replaced(t, p, s.value, u.tick);
        var rest := Decide(r, pol, u, ordered[1..], k + 1).1;
        FillShape(n, t, pol, u, p, s.value);
        FillInverse(n, t, pol, u, p, s.value);
        FillCaches(n, t, pol, u, p, s.value);
        DecideInverse(n, r, pol, u, ordered[1..], k + 1);
        AllNewFirst(p, Placements(rest), t.mirror, r.mirror);
        PlacementsNext(Place(p, s.value, Leaves(t, s.value)), rest);
      }
    }
  }

  lemma AskedNext(d: Decision, rest: seq<Decision>, ordered: seq<Pair>)
    requires ordered != [] && d.pair == ordered[0] && |rest| <= |ordered[1..]| && Asked(rest) == ordered[1..][..|rest|]
    ensures Asked([d] + rest) == ordered[..|rest| + 1]
  {
    var asked, all := Asked([d] + rest), ordered[..|rest| + 1];
    forall i | 0 <= i < |all|
      ensures asked[i] == all[i]
    {
      assert i > 0 ==> Asked(rest)[i - 1] == ordered[1..][i - 1];
    }
  }

  /** Candidates are decided in order, one by one. */
  lemma {:induction false} DecideInOrder(t: Tables, pol: Policy, u: Turn, ordered: seq<Pair>, k: nat)
    ensures var log := Decide(t, pol, u, ordered, k).1; |log| <= |ordered| && Asked(log) == ordered[..|log|]
    decreases |ordered|
  {
    if ordered != [] && k < pol.promote {
      var p, s := ordered[0], SlotFor(t, pol, u);
      if Full(t, pol.cap, p) {
        DecideInOrder(t, pol, u, ordered[1..], k);
        AskedNext(Skip(p), Decide(t, pol, u, ordered[1..], k).1, ordered);
      } else if s.Some? {
        var r := Replaced(t, p, s.value, u.tick);
        DecideInOrder(r, pol, u, ordered[1..], k + 1);
        AskedNext(Place(p, s.value, Leaves(t, s.value)), Decide(r, pol, u, ordered[1..], k + 1).1, ordered);
      }
    }
  }

  lemma DistinctFirst(p: Pair, rest: seq<Pair>)
    ensures Distinct([p] + rest) <==> p !in rest && Distinct(rest)
  {
    AllNewFirst(p, rest, map[], map[p := 0]);
  }

  /** Distinct candidates are placed at most once. */
  lemma {:induction false} PlacedOnce(log: seq<Decision>)
    ensures forall p :: p in Placements(log) ==> p in Asked(log)
    ensures Distinct(Asked(log)) ==> Distinct(Placements(log))
  {
    if log != [] {
      PlacedOnce(log[1..]);
      assert Asked(log) == [log[0].pair] + Asked(log[1..]);
      assert log == [log[0]] + log[1..];
      PlacementsNext(log[0], log[1..]);
      DistinctFirst(log[0].pair, Asked(log[1..]));
      DistinctFirst(log[0].pair, Placements(log[1..]));
    }
  }

  /** Who is cached afterwards: nobody new but the pairs placed, and all of those. */
  lemma {:induction false} DecideCaches(n: nat, t: Tables, pol: Policy, u: Turn, ordered: seq<Pair>, k: nat)
    requires Shape(n, t, u.seen) && forall p :: p in ordered ==> p in u.seen
    ensures var r := Decide(t, pol, u, ordered, k);
      && (forall p :: p in r.0.mirror ==> p in t.mirror || p in Placements(r.1))
      && forall p :: p in Placements(r.1) || (p in t.mirror && p in u.seen) ==> p in r.0.mirror
    decreases |ordered|
  {
    if ordered != [] && k < pol.promote {
      var p, s := ordered[0], SlotFor(t, pol, u);
      if Full(t, pol.cap, p) {
        DecideCaches(n, t, pol, u, ordered[1..], k);
        PlacementsNext(Skip(p), Decide(t, pol, u, ordered[1..], k).1);
      } else if s.Some? {
        var r := Replaced(t, p, s.value, u.tick);
        FillShape(n, t, pol, u, p, s.value);
        FillCaches(n, t, pol, u, p, s.value);
        DecideCaches(n, r, pol, u, ordered[1..], k + 1);
        PlacementsNext(Place(p, s.value, Leaves(t, s.value)), Decide(r, pol, u, ordered[1..], k + 1).1);
      }
    }
  }

  lemma ColdsNext(d: Decision, rest: seq<Decision>, tick: int)
    ensures ColdsOf([d] + rest, tick) == (if d.Place? then ColdOf(d.leaves, tick) else []) + ColdsOf(rest, tick)
  {
    assert ([d] + rest)[1..] == rest;
  }

  /** Placements less departures is the growth of the owner table; whoever leaves has been cold for floor ticks. */
  lemma {:induction false} DecideBooks(n: nat, t: Tables, pol: Policy, u: Turn, ordered: seq<Pair>, k: nat)
    requires Shape(n, t, u.seen) && forall p :: p in ordered ==> p in u.seen
    ensures var r := Decide(t, pol, u, ordered, k);
      && |Placements(r.1)| - |ColdsOf(r.1, u.tick)| == |r.0.slots| - |t.slots|
      && forall i :: 0 <= i < |ColdsOf(r.1, u.tick)| ==> ColdsOf(r.1, u.tick)[i] >= pol.floor
    decreases |ordered|
  {
    if ordered != [] && k < pol.promote {
      var p, s := ordered[0], SlotFor(t, pol, u);
      if Full(t, pol.cap, p) {
        var rest := Decide(t, pol, u, ordered[1..], k).1;
        DecideBooks(n, t, pol, u, ordered[1..], k);
        PlacementsNext(Skip(p), rest);
        ColdsNext(Skip(p), rest, u.tick);
      } else if s.Some? {
        var r, d := Replaced(t, p, s.value, u.tick), Place(p, s.value, Leaves(t, s.value));
        var rest := Decide(r, pol, u, ordered[1..], k + 1).1;
        FillShape(n, t, pol, u, p, s.value);
        DecideBooks(n, r, pol, u, ordered[1..], k + 1);
        PlacementsNext(d, rest);
        ColdsNext(d, rest, u.tick);
        FillBooks(n, t, pol, u, p, s.value);
      }
    }
  }

  lemma FillBooks(n: nat, t: Tables, pol: Policy, u: Turn, p: Pair, s: nat)
    requires Shape(n, t, u.seen) && SlotFor(t, pol, u) == Some(s)
    ensures |Replaced(t, p, s, u.tick).slots| == |t.slots| + if Leaves(t, s).Some? then 0 else 1
    ensures Leaves(t, s).Some? ==> u.tick - Leaves(t, s).value.seen >= pol.floor
  {
    ShapeOpens(n, t, u.seen);
    if t.free == [] {
      SlotIsVictim(n, t, pol, u);
    }
  }

  // ------------------------------------------------------------------ which candidates are placed

  ghost function Evictable(t: Tables, u: Turn, floor: int): set<nat> { set s | s in t.owner && Eligible(t.owner[s], u, floor) }

  /** The slots a frame can fill. */
  ghost function Room(t: Tables, u: Turn, floor: int): nat { |t.free| + |Evictable(t, u, floor)| }

  lemma FillRoom(n: nat, t: Tables, pol: Policy, u: Turn, p: Pair)
    requires Shape(n, t, u.seen) && p in u.seen
    ensures var s := SlotFor(t, pol, u);
      if s.None? then Room(t, u, pol.floor) == 0 else Room(t, u, pol.floor) == Room(Replaced(t, p, s.value, u.tick), u, pol.floor) + 1
  {
    ShapeOpens(n, t, u.seen);
    var s := SlotFor(t, pol, u);
    if t.free != [] {
      assert Evictable(Replaced(t, p, s.value, u.tick), u, pol.floor) == Evictable(t, u, pol.floor);
    } else {
      SlotIsVictim(n, t, pol, u);
      if s.None? {
        assert Evictable(t, u, pol.floor) == {};
      } else {
        assert Evictable(Replaced(t, p, s.value, u.tick), u, pol.floor) == Evictable(t, u, pol.floor) - {s.value};
      }
    }
  }

  function Least(a: int, b: int): int { if a < b then a else b }

  /** How many of m candidates a frame places without a cap: within the budget and the room there is. */
  function Quota(m: nat, budget: int, room: nat): nat { if budget <= 0 then 0 else Least(m, Least(budget, room)) }

  lemma QuotaNext(ordered: seq<Pair>, budget: int, room: nat, placed: seq<Pair>, rest: seq<Pair>)
    requires ordered != [] && budget > 0
    requires if room == 0 then placed == [] else placed == [ordered[0]] + rest && rest == ordered[1..][..Quota(|ordered| - 1, budget - 1, room - 1)]
    ensures placed == ordered[..Quota(|ordered|, budget, room)]
  {
    assert ordered == [ordered[0]] + ordered[1..];
  }

  /** Without a cap the first candidates are placed, as many as budget and room allow. */
  lemma {:induction false} DecideFirst(n: nat, t: Tables, pol: Policy, u: Turn, ordered: seq<Pair>, k: nat)
    requires Shape(n, t, u.seen) && (forall p :: p in ordered ==> p in u.seen) && pol.cap.None?
    ensures Placements(Decide(t, pol, u, ordered, k).1) == ordered[..Quota(|ordered|, pol.promote - k, Room(t, u, pol.floor))]
    decreases |ordered|
  {
    if ordered != [] && k < pol.promote {
      var p, s, placed := ordered[0], SlotFor(t, pol, u), Placements(Decide(t, pol, u, ordered, k).1);
      FillRoom(n, t, pol, u, p);
      DecideNext(t, pol, u, ordered, k);
      var rest := [];
      if s.Some? {
        var r := Replaced(t, p, s.value, u.tick);
        FillShape(n, t, pol, u, p, s.value);
        DecideFirst(n, r, pol, u, ordered[1..], k + 1);
        rest := Placements(Decide(r, pol, u, ordered[1..], k + 1).1);
      }
      QuotaNext(ordered, pol.promote - k, Room(t, u, pol.floor), placed, rest);
    }
  }

  /** The candidates in order, passing over those whose layer is at the cap by then. */
  function Greedy(layers: map<nat, nat>, cap: Option<nat>, ordered: seq<Pair>, budget: int): seq<Pair>
    decreases |ordered|
  {
    if ordered == [] || budget <= 0 then []
    else
      var l := ordered[0].layer;
      if cap.Some? && Get(layers, l) >= cap.value then Greedy(layers, cap, ordered[1..], budget)
      else [ordered[0]] + Greedy(layers[l := Get(layers, l) + 1], cap, ordered[1..], budget - 1)
  }

  lemma FreeFill(t: Tables, pol: Policy, u: Turn, p: Pair, s: nat)
    requires t.free != [] && SlotFor(t, pol, u) == Some(s)
    ensures |Replaced(t, p, s, u.tick).free| == |t.free| - 1
    ensures Replaced(t, p, s, u.tick).layers == t.layers[p.layer := Get(t.layers, p.layer) + 1]
  {
  }

  ghost predicate IsGreedy(placed: seq<Pair>, layers: map<nat, nat>, cap: Option<nat>, ordered: seq<Pair>, budget: int) {
    forall k {:trigger Open(k)} :: k == 0 ==> placed == Greedy(layers, cap, ordered, budget)
  }

  lemma GreedyEnds(placed: seq<Pair>, layers: map<nat, nat>, cap: Option<nat>, ordered: seq<Pair>, budget: int)
    requires (ordered == [] || budget <= 0) && placed == []
    ensures IsGreedy(placed, layers, cap, ordered, budget)
  {
    assert Greedy(layers, cap, ordered, budget) == [];
  }

  lemma GreedyNext(placed: seq<Pair>, rest: seq<Pair>, layers: map<nat, nat>, cap: Option<nat>, ordered: seq<Pair>, budget: int)
    requires ordered != [] && budget > 0
    requires if cap.Some? && Get(layers, ordered[0].layer) >= cap.value then placed == rest && IsGreedy(rest, layers, cap, ordered[1..], budget)
             else placed == [ordered[0]] + rest
                  && IsGreedy(rest, layers[ordered[0].layer := Get(layers, ordered[0].layer) + 1], cap, ordered[1..], budget - 1)
    ensures IsGreedy(placed, layers, cap, ordered, budget)
  {
    assert Open(0);
  }

  /** With free slots for the whole budget, the placed ones depend on the layer counts alone. */
  lemma {:induction false} DecideGreedy(t: Tables, pol: Policy, u: Turn, ordered: seq<Pair>, k: nat)
    requires |t.free| >= pol.promote - k
    ensures IsGreedy(Placements(Decide(t, pol, u, ordered, k).1), t.layers, pol.cap, ordered, pol.promote - k)
    decreases |ordered|
  {
    var placed := Placements(Decide(t, pol, u, ordered, k).1);
    if ordered == [] || k >= pol.promote {
      GreedyEnds(placed, t.layers, pol.cap, ordered, pol.promote - k);
    } else {
      var p, s := ordered[0], SlotFor(t, pol, u).value;
      DecideNext(t, pol, u, ordered, k);
      if Full(t, pol.cap, p) {
        DecideGreedy(t, pol, u, ordered[1..], k);
        GreedyNext(placed, placed, t.layers, pol.cap, ordered, pol.promote - k);
      } else {
        var r := Replaced(t, p, s, u.tick);
        FreeFill(t, pol, u, p, s);
        DecideGreedy(r, pol, u, ordered[1..], k + 1);
        GreedyNext(placed, Placements(Decide(r, pol, u, ordered[1..], k + 1).1), t.layers, pol.cap, ordered, pol.promote - k);
      }
    }
  }
}
