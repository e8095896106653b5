/** The 2-bit MoE GEMM, second half: split-K reduction through shared memory, the predicated paired store,
    and the whole launch. */
module MoeW2Kernel {
  import opened Arithmetic
  import opened Sums
  import opened FragmentLayout
  import opened MoeW2Gemm

  /** _nwarp: the largest divisor of K/128 not above the cap. */
  method Nwarp(k: nat) returns (n: nat)
    ensures 1 <= n <= 8
    ensures k / 128 > 0 ==> n <= k / 128 && k / 128 % n == 0 && (k < 1024 ==> n <= 4)
    ensures k / 128 > 0 ==> forall m :: n < m <= (if k >= 1024 then 8 else 4) && m <= k / 128 ==> k / 128 % m != 0
  {
    var nb := k / 128;
    var cap := if k >= 1024 then 8 else 4;
    n := if cap < nb then cap else nb;
    while n > 0
      invariant n <= cap && n <= nb
      invariant forall m :: n < m <= cap && m <= nb ==> nb % m != 0
    {
      if nb % n == 0 {
        return;
      }
      n := n - 1;
    }
    assert nb % 1 == 0;
    return 1;
  }

  // ------------------------------------------------------------------ slots

  /** A shared-memory slot of one warp, by digits: s = 128 tile + 16 g + 4 t + 2 hi + lo. */
  datatype Coord = Coord(p: Problem, tile: nat, g: nat, t: nat, hi: nat, lo: nat) {
    predicate Valid() { tile < 2 && g < 8 && t < 4 && hi < 2 && lo < 2 }
    function Slot(): nat { tile * 128 + g * 16 + t * 4 + hi * 2 + lo }
    function Row(): nat { g + hi * 8 }
    function Col(): nat { tile * 8 + t * 2 + lo }
    function Even(): Coord { this.(lo := 0) }
    function Odd(): Coord { this.(lo := 1) }
  }

  /** The digits the reduce pass takes from a slot: lane = (s & 0x7f) >> 2, i = s & 3, row = (lane >> 2) + 8 (i >> 1),
      column = 8 (s >> 7) + 2 (lane & 3) + (i & 1). */
  function Decode(p: Problem, s: nat): Coord {
    var lane4 := s % 128;
    var t4 := lane4 % 16;
    var i := t4 % 4;
    Coord(p, s / 128, lane4 / 16, t4 / 4, i / 2, i % 2)
  }

  lemma DecodeSlot(p: Problem, s: nat)
    requires s < 256
    ensures Decode(p, s).Valid() && Decode(p, s).Slot() == s
  {
  }

  /** The digits of an output position inside the 16 x 16 tile. */
  function CoordOf(p: Problem, r: nat, cc: nat): Coord {
    var t2 := cc % 8;
    Coord(p, cc / 8, r % 8, t2 / 2, r / 8, t2 % 2)
  }

  lemma CoordOfPosition(p: Problem, r: nat, cc: nat)
    requires r < 16 && cc < 16
    ensures CoordOf(p, r, cc).Valid() && CoordOf(p, r, cc).Row() == r && CoordOf(p, r, cc).Col() == cc
  {
  }

  /** Slots and output positions are in bijection. */
  lemma CoordUnique(c: Coord, d: Coord)
    requires c.Valid() && d.Valid() && (c.Slot() == d.Slot() || (c.Row() == d.Row() && c.Col() == d.Col()))
    ensures c.tile == d.tile && c.g == d.g && c.t == d.t && c.hi == d.hi && c.lo == d.lo
  {
  }

  /** The digits of a slot, for a caller that needs no more than their validity. */
  method DecodeAt(p: Problem, s: nat) returns (d: Coord)
    requires s < 256
    ensures d.Valid() && d.Slot() == s
  {
    DecodeSlot(p, s);
    d := Decode(p, s);
  }

  lemma DecodeIs(s: nat, c: Coord)
    requires s < 256 && c.Valid()
    ensures Decode(c.p, s) == c <==> s == c.Slot()
  {
    DecodeSlot(c.p, s);
    if s == c.Slot() {
      CoordUnique(Decode(c.p, s), c);
    }
  }

  /** The guard against clamped threads: only a pass that overflows has it. */
  predicate Unclamped(base: nat, nthr: nat, tid: nat) { base + nthr <= 256 || tid < 256 - base }

  /** The store predicate: an even column and a live row. */
  predicate Writes(mRows: nat, d: Coord) { d.Row() < mRows && d.lo == 0 }

  /** A thread of a pass stores. */
  predicate Stores(p: Problem, mRows: nat, nthr: nat, base: nat, tid: nat) {
    Unclamped(base, nthr, tid) && Writes(mRows, Decode(p, (base + tid) % 256))
  }

  /** A pass and thread handle slot s, unclamped, just when they are its quotient and remainder by the thread count. */
  lemma PassOf(nthr: nat, s: nat, pass: nat, tid: nat, base: nat)
    requires 0 < nthr <= 256 && s < 256 && base == pass * nthr < 256 && tid < nthr
    ensures (base + tid) % 256 == s && Unclamped(base, nthr, tid) <==> pass == s / nthr && tid == s % nthr
  {
    assert s == s / nthr * nthr + s % nthr;
    if base + tid == s {
      DivModUnique(s, nthr, pass, tid);
    }
  }

  /** Over all passes and threads, an even slot with a row is stored by exactly one thread,
      also when the thread count does not divide 256 and the last pass is clamped. */
  lemma StoredOnce(p: Problem, mRows: nat, nthr: nat, c: Coord, pass: nat, tid: nat, base: nat)
    requires 0 < nthr <= 256 && c.p == p && c.Valid() && c.lo == 0 && c.Row() < mRows && base == pass * nthr < 256 && tid < nthr
    ensures Stores(p, mRows, nthr, base, tid) && Decode(p, (base + tid) % 256) == c
        <==> pass == c.Slot() / nthr && tid == c.Slot() % nthr
  {
    var s := (base + tid) % 256;
    PassOf(nthr, c.Slot(), pass, tid, base);
    DecodeIs(s, c);
    assert Stores(p, mRows, nthr, base, tid) && Decode(p, s) == c <==> s == c.Slot() && Unclamped(base, nthr, tid);
  }

  // ------------------------------------------------------------------ the output buffer

  /** What the kernel leaves in C[r, n]: the product for the rows it loads, zero for rows 8.. with MC = 1. */
  ghost function Output(p: Problem, w: Weights, r: int, n: int): real { Partial(p, w, r, n, 0, p.K()) }

  /** The values one launch aims at: part(v)(r, n) is warp v's share of C[r, n], out(r, n) the whole. The reduction
      and the store see no more of them than that the shares add up. */
  datatype Goal = Goal(part: int -> Matrix<real>, out: Matrix<real>) {
    ghost predicate Of(p: Problem, w: Weights) {
      && (forall v, r, n {:trigger part(v)(r, n)} :: part(v)(r, n) == Partial(p, w, r, n, v * p.KSlice(), (v + 1) * p.KSlice()))
      && (forall r, n {:trigger out(r, n)} :: out(r, n) == Output(p, w, r, n))
    }

    ghost predicate Adds(nwarp: nat) { forall r, n {:trigger out(r, n)} :: out(r, n) == Sum(v => part(v)(r, n), 0, nwarp) }
  }

  lemma SlicesCoverK(p: Problem)
    requires p.Valid()
    ensures p.nwarp * p.KSlice() == p.K()
  {
  }

  /** The warps' slices add up to the whole K range. */
  lemma SlicesAdd(p: Problem, w: Weights, g: Goal)
    requires p.Valid() && g.Of(p, w)
    ensures g.Adds(p.nwarp)
  {
    forall r, n
      ensures g.out(r, n) == Sum(v => g.part(v)(r, n), 0, p.nwarp)
    {
      SlicesCoverK(p);
      if Loads(p, r) {
        SumBlocks(w.term(r, n), v => g.part(v)(r, n), p.KSlice(), p.nwarp);
      } else {
        SumZero(v => g.part(v)(r, n), 0, p.nwarp);
      }
    }
  }

  ghost predicate Shape(p: Problem, c: array2<real>) { c.Length0 == p.mRows && c.Length1 == p.N() }

  /** The ghost record of stores: how often each entry of C was written. */
  type Hits = Matrix<int>

  /** Entry q of the block after all even slots below done have been stored. */
  ghost predicate EntryAt(p: Problem, g: Goal, nb: nat, c: array2<real>, was: Matrix<real>, hits: Hits, washits: Hits, done: int, q: Coord)
    requires Shape(p, c) && nb < p.nblocks && q.Valid() && q.Row() < p.mRows
    reads c
  {
    var r, n := q.Row(), nb * 16 + q.Col();
    if q.Even().Slot() < done then c[r, n] == g.out(r, n) && hits(r, n) == washits(r, n) + 1
    else c[r, n] == was(r, n) && hits(r, n) == washits(r, n)
  }

  ghost predicate StoredTo(p: Problem, g: Goal, nb: nat, c: array2<real>, was: Matrix<real>, hits: Hits, washits: Hits, done: int)
    requires Shape(p, c) && nb < p.nblocks
    reads c
  {
    && (forall q: Coord {:trigger q.Valid()} :: q.Valid() && q.Row() < p.mRows ==> EntryAt(p, g, nb, c, was, hits, washits, done, q))
    && forall r, n :: 0 <= r < p.mRows && 0 <= n < p.N() && (r >= 16 || n < nb * 16 || n >= nb * 16 + 16) ==>
         c[r, n] == was(r, n) && hits(r, n) == washits(r, n)
  }

  /** The pair an even slot stores is exactly what it covers. */
  lemma EvenPair(q: Coord, d: Coord)
    requires q.Valid() && d.Valid()
    ensures q.Even().Slot() == d.Slot() <==> d.lo == 0 && q.Row() == d.Row() && (q.Col() == d.Col() || q.Col() == d.Col() + 1)
  {
    if q.Even().Slot() == d.Slot() {
      CoordUnique(q.Even(), d);
    } else if d.lo == 0 && q.Row() == d.Row() && q.Col() == d.Col() {
      CoordUnique(q, d);
    } else if d.lo == 0 && q.Row() == d.Row() && q.Col() == d.Col() + 1 {
      CoordUnique(q, d.Odd());
    }
  }

  /** STG of a pair of columns. */
  method StorePair(c: array2<real>, r: nat, n: nat, lo: real, hi: real)
    requires r < c.Length0 && n + 1 < c.Length1
    modifies c
    ensures forall i, k :: 0 <= i < c.Length0 && 0 <= k < c.Length1 ==>
      c[i, k] == if i == r && k == n then lo else if i == r && k == n + 1 then hi else old(c[i, k])
  {
    c[r, n] := lo;
    c[r, n + 1] := hi;
  }

  /** One thread's predicated store of its value and, through SHFL.DOWN, its neighbour's. */
  method StoreSlot(p: Problem, ghost g: Goal, nb: nat, d: Coord, lo: real, hi: real, c: array2<real>,
                   ghost was: Matrix<real>, ghost hits: Hits, ghost washits: Hits) returns (ghost hits': Hits)
    requires p.Valid() && nb < p.nblocks && d.Valid() && Shape(p, c) && StoredTo(p, g, nb, c, was, hits, washits, d.Slot())
    requires d.lo == 0 ==> lo == g.out(d.Row(), nb * 16 + d.Col()) && hi == g.out(d.Row(), nb * 16 + d.Col() + 1)
    modifies c
    ensures StoredTo(p, g, nb, c, was, hits', washits, d.Slot() + 1)
  {
    hits' := hits;
    if Writes(p.mRows, d) {
      var r, n := d.Row(), nb * 16 + d.Col();
      StorePair(c, r, n, lo, hi);
      hits' := (i, k) => if i == r && (k == n || k == n + 1) then hits(i, k) + 1 else hits(i, k);
    }
    forall q: Coord | q.Valid() && q.Row() < p.mRows
      ensures EntryAt(p, g, nb, c, was, hits', washits, d.Slot() + 1, q)
    {
      assert old(EntryAt(p, g, nb, c, was, hits, washits, d.Slot(), q));
      EvenPair(q, d);
    }
  }

  // ------------------------------------------------------------------ shared memory and the split-K reduction

  /** The word a warp keeps for a slot: warp pages are 0x400 bytes apart. */
  function WarpWord(smem: seq<real>, v: nat, q: Coord): real
    requires q.Valid() && v * 256 + 256 <= |smem|
  {
    smem[v * 256 + q.Slot()]
  }

  /** Every warp below n has spilled the sums over its own K slice. */
  ghost predicate Spilled(p: Problem, g: Goal, nb: nat, smem: seq<real>, n: nat)
    requires |smem| == 256 * p.nwarp && n <= p.nwarp
  {
    forall v: nat, q: Coord {:trigger WarpWord(smem, v, q)} :: v < n && q.Valid() ==>
      WarpWord(smem, v, q) == g.part(v)(q.Row(), nb * 16 + q.Col())
  }

  /** STS of the eight masters of every lane: words lane * 4 + i and 128 + lane * 4 + i of the warp's page. */
  method SpillWarp(m0: Quads, m1: Quads, wid: nat, smem: array<real>)
    requires wid * 256 + 256 <= smem.Length
    modifies smem
    ensures forall q: Coord {:trigger q.Valid()} :: q.Valid() ==>
      WarpWord(smem[..], wid, q) == (if q.tile == 0 then m0 else m1)[q.g * 4 + q.t].At(q.hi * 2 + q.lo)
    ensures forall x :: 0 <= x < smem.Length && (x < wid * 256 || x >= wid * 256 + 256) ==> smem[x] == old(smem[x])
  {
    var base := wid * 256;
    for l := 0 to 32
      invariant forall k, i {:trigger m0[k].At(i)} :: 0 <= k < l && 0 <= i < 4 ==> smem[base + k * 4 + i] == m0[k].At(i)
      invariant forall k, i {:trigger m1[k].At(i)} :: 0 <= k < l && 0 <= i < 4 ==> smem[base + 128 + k * 4 + i] == m1[k].At(i)
      invariant forall x :: 0 <= x < smem.Length && (x < base || x >= base + 256) ==> smem[x] == old(smem[x])
    {
      var at := base + l * 4;
      smem[at], smem[at + 1], smem[at + 2], smem[at + 3] := m0[l].e0, m0[l].e1, m0[l].e2, m0[l].e3;
      smem[at + 128], smem[at + 129], smem[at + 130], smem[at + 131] := m1[l].e0, m1[l].e1, m1[l].e2, m1[l].e3;
    }
    forall q: Coord | q.Valid()
      ensures WarpWord(smem[..], wid, q) == (if q.tile == 0 then m0 else m1)[q.g * 4 + q.t].At(q.hi * 2 + q.lo)
    {
      var k, i := q.g * 4 + q.t, q.hi * 2 + q.lo;
      assert q.Slot() == q.tile * 128 + k * 4 + i;
      assert if q.tile == 0 then smem[base + k * 4 + i] == m0[k].At(i) else smem[base + 128 + k * 4 + i] == m1[k].At(i);
    }
  }

  function SlotValues(smem: seq<real>, s: nat): int -> real {
    v => if 0 <= v * 256 + s < |smem| then smem[v * 256 + s] else 0.0
  }

  /** LDS of a slot from warp 0 and FADD of the other warps, in order. */
  method ReduceSlot(smem: array<real>, nwarp: nat, s: nat) returns (sum: real)
    requires 1 <= nwarp && smem.Length == 256 * nwarp && s < 256
    ensures sum == Sum(SlotValues(smem[..], s), 0, nwarp)
  {
    ghost var f := SlotValues(smem[..], s);
    sum := smem[s];
    assert Sum(f, 0, 0) == 0.0 && f(0) == smem[s];
    for v := 1 to nwarp
      invariant sum == Sum(f, 0, v)
    {
      assert f(v) == smem[v * 256 + s];
      sum := sum + smem[v * 256 + s];
    }
  }

  lemma PartsOutput(f: int -> real, g: Goal, nwarp: nat, r: int, n: int)
    requires g.Adds(nwarp) && forall v :: 0 <= v < nwarp ==> f(v) == g.part(v)(r, n)
    ensures Sum(f, 0, nwarp) == g.out(r, n)
  {
    SumExt(f, v => g.part(v)(r, n), 0, nwarp);
  }

  /** The warps' words of a slot add up to the output at its position. */
  lemma ReducedOutput(p: Problem, g: Goal, nb: nat, smem: seq<real>, q: Coord)
    requires |smem| == 256 * p.nwarp && Spilled(p, g, nb, smem, p.nwarp) && q.Valid() && g.Adds(p.nwarp)
    ensures Sum(SlotValues(smem, q.Slot()), 0, p.nwarp) == g.out(q.Row(), nb * 16 + q.Col())
  {
    var f := SlotValues(smem, q.Slot());
    forall v | 0 <= v < p.nwarp
      ensures f(v) == g.part(v)(q.Row(), nb * 16 + q.Col())
    {
      assert WarpWord(smem, v, q) == f(v);
    }
    PartsOutput(f, g, p.nwarp, q.Row(), nb * 16 + q.Col());
  }

  /** The reduced sums of a pass, thread by thread: slot (base + tid) & 0xff. */
  method LoadPass(p: Problem, ghost g: Goal, nb: nat, base: nat, smem: array<real>) returns (r30: seq<real>)
    requires p.Valid() && smem.Length == 256 * p.nwarp && Spilled(p, g, nb, smem[..], p.nwarp) && g.Adds(p.nwarp)
    ensures |r30| == 32 * p.nwarp
    ensures forall t :: 0 <= t < |r30| ==> SlotOutput(p, g, nb, (base + t) % 256, r30[t])
  {
    r30 := [];
    for tid := 0 to 32 * p.nwarp
      invariant |r30| == tid
      invariant forall t :: 0 <= t < tid ==> SlotOutput(p, g, nb, (base + t) % 256, r30[t])
    {
      var v := LoadThread(p, g, nb, (base + tid) % 256, smem);
      r30 := r30 + [v];
    }
  }

  method LoadThread(p: Problem, ghost g: Goal, nb: nat, s: nat, smem: array<real>) returns (sum: real)
    requires p.Valid() && smem.Length == 256 * p.nwarp && s < 256 && Spilled(p, g, nb, smem[..], p.nwarp) && g.Adds(p.nwarp)
    ensures SlotOutput(p, g, nb, s, sum)
  {
    sum := ReduceSlot(smem, p.nwarp, s);
    forall d: Coord | d.Valid() && d.Slot() == s
      ensures CoordOutput(p, g, nb, d, sum)
    {
      ReducedOutput(p, g, nb, smem[..], d);
    }
  }

  lemma SlotAt(p: Problem, g: Goal, nb: nat, s: nat, d: Coord, v: real)
    requires SlotOutput(p, g, nb, s, v) && d.Valid() && d.Slot() == s
    ensures CoordOutput(p, g, nb, d, v)
  {
  }

  /** The next lane of an even slot holds the next column of the same row. */
  lemma OddSlot(d: Coord)
    requires d.Valid() && d.lo == 0
    ensures d.Odd().Valid() && d.Odd().Slot() == d.Slot() + 1
    ensures d.Odd().Row() == d.Row() && d.Odd().Col() == d.Col() + 1
  {
  }

  lemma PairValues(p: Problem, g: Goal, nb: nat, d: Coord, s: nat, lo: real, hi: real)
    requires d.Valid() && d.Slot() == s && d.lo == 0
    requires SlotOutput(p, g, nb, s, lo) && SlotOutput(p, g, nb, s + 1, hi)
    ensures lo == g.out(d.Row(), nb * 16 + d.Col()) && hi == g.out(d.Row(), nb * 16 + d.Col() + 1)
  {
    OddSlot(d);
    SlotAt(p, g, nb, s, d, lo);
    SlotAt(p, g, nb, s + 1, d.Odd(), hi);
    assert nb * 16 + d.Col() + 1 == nb * 16 + (d.Col() + 1);
  }

  lemma EvenSlot(d: Coord)
    requires d.Valid() && d.lo == 0
    ensures d.Slot() % 32 < 31
  {
    assert d.Slot() % 2 == 0;
  }

  /** An even thread has its neighbour in its own warp: SHFL.DOWN by one brings the next column. */
  method StoreThread(p: Problem, ghost g: Goal, nb: nat, s: nat, lane: nat, lo: real, hi: real, c: array2<real>,
                     ghost was: Matrix<real>, ghost hits: Hits, ghost washits: Hits) returns (ghost hits': Hits)
    requires p.Valid() && nb < p.nblocks && s < 256 && s % 32 == lane && Shape(p, c)
    requires SlotOutput(p, g, nb, s, lo) && (lane < 31 ==> SlotOutput(p, g, nb, s + 1, hi))
    requires StoredTo(p, g, nb, c, was, hits, washits, s)
    modifies c
    ensures StoredTo(p, g, nb, c, was, hits', washits, s + 1)
  {
    var d := DecodeAt(p, s);
    if d.lo == 0 {
      EvenSlot(d);
      PairValues(p, g, nb, d, s, lo, hi);
    }
    hits' := StoreSlot(p, g, nb, d, lo, hi, c, was, hits, washits);
  }

  /** The lane of a pass's thread is the low part of its slot, and the next thread has the next slot. */
  lemma PassLane(base: nat, tid: nat)
    requires base % 32 == 0 && base + tid < 256
    ensures (base + tid) % 32 == tid % 32 && (base + tid) % 256 == base + tid
    ensures tid % 32 < 31 ==> (base + (tid + 1)) % 256 == base + tid + 1
  {
    assert tid % 32 < 31 ==> base + tid < 255;
  }

  /** emit_reduce_store for one slot base: every thread reduces its slot, then the even ones store a pair.
      Threads past slot 255 are clamped in the last pass. */
  method ReducePass(p: Problem, ghost g: Goal, nb: nat, base: nat, smem: array<real>, c: array2<real>,
                    ghost was: Matrix<real>, ghost hits: Hits, ghost washits: Hits) returns (ghost hits': Hits)
    requires p.Valid() && nb < p.nblocks && base < 256 && base % 32 == 0 && Shape(p, c)
    requires smem.Length == 256 * p.nwarp && Spilled(p, g, nb, smem[..], p.nwarp) && g.Adds(p.nwarp)
    requires StoredTo(p, g, nb, c, was, hits, washits, base)
    modifies c
    ensures StoredTo(p, g, nb, c, was, hits', washits, if base + 32 * p.nwarp < 256 then base + 32 * p.nwarp else 256)
  {
    var r30 := LoadPass(p, g, nb, base, smem);
    hits' := StorePass(p, g, nb, base, 32 * p.nwarp, r30, c, was, hits, washits);
  }

  method StorePass(p: Problem, ghost g: Goal, nb: nat, base: nat, nthr: nat, r30: seq<real>, c: array2<real>,
                   ghost was: Matrix<real>, ghost hits: Hits, ghost washits: Hits) returns (ghost hits': Hits)
    requires p.Valid() && nb < p.nblocks && base < 256 && base % 32 == 0 && nthr % 32 == 0 && Shape(p, c) && |r30| == nthr
    requires forall t :: 0 <= t < nthr ==> SlotOutput(p, g, nb, (base + t) % 256, r30[t])
    requires StoredTo(p, g, nb, c, was, hits, washits, base)
    modifies c
    ensures StoredTo(p, g, nb, c, was, hits', washits, if base + nthr < 256 then base + nthr else 256)
  {
    hits' := hits;
    ghost var done := base;
    for tid := 0 to nthr
      invariant done == if base + tid < 256 then base + tid else 256
      invariant StoredTo(p, g, nb, c, was, hits', washits, done)
    {
      if Unclamped(base, nthr, tid) {
        PassLane(base, tid);
        var hi := if tid % 32 == 31 then r30[tid] else r30[tid + 1];
        hits' := StoreThread(p, g, nb, base + tid, tid % 32, r30[tid], hi, c, was, hits', washits);
        done := done + 1;
      }
    }
  }

  /** v is the output at the position of a slot's digits. */
  ghost predicate CoordOutput(p: Problem, g: Goal, nb: nat, d: Coord, v: real) {
    v == g.out(d.Row(), nb * 16 + d.Col())
  }

  ghost predicate SlotOutput(p: Problem, g: Goal, nb: nat, s: nat, v: real) {
    forall d: Coord {:trigger d.Valid()} :: d.Valid() && d.Slot() == s ==> CoordOutput(p, g, nb, d, v)
  }

  predicate InBlock(nb: nat, r: int, n: int) { r < 16 && nb * 16 <= n < nb * 16 + 16 }

  /** One CTA: the warps march and spill, the barrier, then the reduce passes. A pad pair (m_rows = 0) leaves at once. */
  method Cta(p: Problem, ghost w: Weights, nb: nat, c: array2<real>, ghost hits: Hits) returns (ghost hits': Hits)
    requires p.Valid() && w.Packed(p) && nb < p.nblocks && Shape(p, c)
    modifies c
    ensures forall r, n :: 0 <= r < p.mRows && 0 <= n < p.N() ==>
      if InBlock(nb, r, n) then c[r, n] == Output(p, w, r, n) && hits'(r, n) == hits(r, n) + 1
      else c[r, n] == old(c[r, n]) && hits'(r, n) == hits(r, n)
  {
    hits' := hits;
    if p.mRows == 0 {
      return;
    }
    ghost var g := GoalOf(p, w);
    var smem := SpillAll(p, w, g, nb);
    ghost var was: Matrix<real> := (r, n) => if 0 <= r < p.mRows && 0 <= n < p.N() then old(c[r, n]) else 0.0;
    hits' := ReduceStore(p, g, nb, smem, c, was, hits);
    forall r, n | 0 <= r < p.mRows && 0 <= n < p.N() && InBlock(nb, r, n)
      ensures c[r, n] == Output(p, w, r, n) && hits'(r, n) == hits(r, n) + 1
    {
      BlockStored(p, g, nb, c, was, hits', hits, r, n);
    }
  }

  /** Once all 256 slots are done, every position of the block with a row has been stored. */
  lemma BlockStored(p: Problem, g: Goal, nb: nat, c: array2<real>, was: Matrix<real>, hits: Hits, washits: Hits, r: int, n: int)
    requires Shape(p, c) && nb < p.nblocks && StoredTo(p, g, nb, c, was, hits, washits, 256)
    requires 0 <= r < p.mRows && InBlock(nb, r, n)
    ensures c[r, n] == g.out(r, n) && hits(r, n) == washits(r, n) + 1
  {
    var q := CoordOf(p, r, n - nb * 16);
    CoordOfPosition(p, r, n - nb * 16);
    assert nb * 16 + q.Col() == n;
    EntryDone(p, g, nb, c, was, hits, washits, q, n);
  }

  lemma EntryDone(p: Problem, g: Goal, nb: nat, c: array2<real>, was: Matrix<real>, hits: Hits, washits: Hits, q: Coord, n: int)
    requires Shape(p, c) && nb < p.nblocks && StoredTo(p, g, nb, c, was, hits, washits, 256)
    requires q.Valid() && q.Row() < p.mRows && n == nb * 16 + q.Col()
    ensures c[q.Row(), n] == g.out(q.Row(), n) && hits(q.Row(), n) == washits(q.Row(), n) + 1
  {
    assert EntryAt(p, g, nb, c, was, hits, washits, 256, q);
    assert q.Even().Slot() < 256;
  }

  /** The reduce passes, blockDim slots at a time. */
  method ReduceStore(p: Problem, ghost g: Goal, nb: nat, smem: array<real>, c: array2<real>,
                     ghost was: Matrix<real>, ghost hits: Hits) returns (ghost hits': Hits)
    requires p.Valid() && nb < p.nblocks && Shape(p, c)
    requires smem.Length == 256 * p.nwarp && Spilled(p, g, nb, smem[..], p.nwarp) && g.Adds(p.nwarp)
    requires StoredTo(p, g, nb, c, was, hits, hits, 0)
    modifies c
    ensures StoredTo(p, g, nb, c, was, hits', hits, 256)
  {
    hits' := hits;
    var base := 0;
    ghost var done := 0;
    while base < 256
      invariant base % 32 == 0 && done == if base < 256 then base else 256
      invariant StoredTo(p, g, nb, c, was, hits', hits, done)
      invariant Spilled(p, g, nb, smem[..], p.nwarp)
    {
      hits' := ReducePass(p, g, nb, base, smem, c, was, hits', hits);
      base := base + 32 * p.nwarp;
      done := if base < 256 then base else 256;
    }
  }

  ghost method GoalOf(p: Problem, w: Weights) returns (g: Goal)
    requires p.Valid()
    ensures g.Of(p, w) && g.Adds(p.nwarp)
  {
    g := Goal(v => ((r, n) => Partial(p, w, r, n, v * p.KSlice(), (v + 1) * p.KSlice())), (r, n) => Output(p, w, r, n));
    SlicesAdd(p, w, g);
  }

  method SpillAll(p: Problem, ghost w: Weights, ghost g: Goal, nb: nat) returns (smem: array<real>)
    requires p.Valid() && w.Packed(p) && nb < p.nblocks && g.Of(p, w)
    ensures fresh(smem) && smem.Length == 256 * p.nwarp && Spilled(p, g, nb, smem[..], p.nwarp)
  {
    smem := new real[256 * p.nwarp];
    for wid := 0 to p.nwarp
      invariant Spilled(p, g, nb, smem[..], wid)
    {
      var m0, m1 := MarchWarp(p, w, nb, wid);
      ghost var before := smem[..];
      SpillWarp(m0, m1, wid, smem);
      SpilledNext(p, w, g, nb, before, smem[..], wid, m0, m1);
    }
  }

  /** A page spilled next to the untouched earlier ones. */
  lemma SpilledNext(p: Problem, w: Weights, g: Goal, nb: nat, before: seq<real>, smem: seq<real>, wid: nat, m0: Quads, m1: Quads)
    requires wid < p.nwarp && |before| == |smem| == 256 * p.nwarp && Spilled(p, g, nb, before, wid) && g.Of(p, w)
    requires forall x :: 0 <= x < wid * 256 ==> smem[x] == before[x]
    requires forall q: Coord {:trigger q.Valid()} :: q.Valid() ==>
      WarpWord(smem, wid, q) == (if q.tile == 0 then m0 else m1)[q.g * 4 + q.t].At(q.hi * 2 + q.lo)
    requires Masters(p, w, nb, 0, m0, wid * p.KSlice(), (wid + 1) * p.KSlice())
    requires Masters(p, w, nb, 1, m1, wid * p.KSlice(), (wid + 1) * p.KSlice())
    ensures Spilled(p, g, nb, smem, wid + 1)
  {
    forall v: nat, q: Coord | v < wid + 1 && q.Valid()
      ensures WarpWord(smem, v, q) == g.part(v)(q.Row(), nb * 16 + q.Col())
    {
      if v < wid {
        assert WarpWord(before, v, q) == WarpWord(smem, v, q);
      } else {
        assert q.Valid();
        if q.tile == 0 {
          MasterWord(p, w, g, nb, wid, q, m0);
        } else {
          MasterWord(p, w, g, nb, wid, q, m1);
        }
      }
    }
  }

  lemma MasterWord(p: Problem, w: Weights, g: Goal, nb: nat, wid: nat, q: Coord, m: Quads)
    requires q.Valid() && g.Of(p, w) && Masters(p, w, nb, q.tile, m, wid * p.KSlice(), (wid + 1) * p.KSlice())
    ensures m[q.g * 4 + q.t].At(q.hi * 2 + q.lo) == g.part(wid)(q.Row(), nb * 16 + q.Col())
  {
    MasterAt(p, w, nb, q, m, wid * p.KSlice(), (wid + 1) * p.KSlice(), q.Row(), nb * 16 + q.Col());
  }

  lemma MasterAt(p: Problem, w: Weights, nb: nat, q: Coord, m: Quads, lo: int, hi: int, r: int, n: int)
    requires q.Valid() && Masters(p, w, nb, q.tile, m, lo, hi) && r == q.Row() && n == nb * 16 + q.Col()
    ensures m[q.g * 4 + q.t].At(q.hi * 2 + q.lo) == Partial(p, w, r, n, lo, hi)
  {
    QuadPosition(q);
    var k, i := q.g * 4 + q.t, q.hi * 2 + q.lo;
    assert m[k].At(i) == Partial(p, w, QuadRow(k, i), nb * 16 + q.tile * 8 + QuadCol(k, i), lo, hi);
  }

  lemma QuadPosition(q: Coord)
    requires q.Valid()
    ensures QuadRow(q.g * 4 + q.t, q.hi * 2 + q.lo) == q.Row() && q.tile * 8 + QuadCol(q.g * 4 + q.t, q.hi * 2 + q.lo) == q.Col()
  {
  }

  /** The launch over all n-blocks of one (expert, token-group) pair: every C[r, n] of the tile's rows is stored exactly
      once and is the plain scaled product; with MC = 1 the rows from 8 on come out as zero. */
  method Gemm(p: Problem, ghost codes: Matrix<bv8>, ghost scales: Matrix<bv8>, c: array2<real>) returns (ghost hits: Hits)
    requires p.Valid() && TwoBit(codes) && Shape(p, c)
    requires p.plane == PackFragmentMajor(codes, p.nblocks, p.K() / 64)
    requires p.sPlane == PackScales(scales, p.nblocks, p.K() / 32)
    modifies c
    ensures forall r, n :: 0 <= r < p.mRows && 0 <= n < p.N() ==>
      if r >= 16 then c[r, n] == old(c[r, n]) && hits(r, n) == 0
      else hits(r, n) == 1 && c[r, n] == if r < 8 || p.mc == 4 then Reference(p, codes, scales, r, n) else 0.0
  {
    ghost var term: Matrix<int -> real> := (r, n) => (k => Term(p, codes, scales, r, n, k));
    ghost var w := Weights(codes, scales, term);
    hits := (r, n) => 0;
    for nb := 0 to p.nblocks
      invariant forall r, n :: 0 <= r < p.mRows && 0 <= n < p.N() ==>
        if r < 16 && n < nb * 16 then c[r, n] == Output(p, w, r, n) && hits(r, n) == 1
        else c[r, n] == old(c[r, n]) && hits(r, n) == 0
    {
      hits := Cta(p, w, nb, c, hits);
    }
    forall r, n | 0 <= r < p.mRows && 0 <= n < p.N()
      ensures Output(p, w, r, n) == if r < 8 || p.mc == 4 then Reference(p, codes, scales, r, n) else 0.0
    {
      OutputIsReference(p, w, r, n);
    }
  }

  lemma OutputIsReference(p: Problem, w: Weights, r: int, n: int)
    requires p.Valid() && w.Packed(p) && r < p.mRows
    ensures Output(p, w, r, n) == if r < 8 || p.mc == 4 then Reference(p, w.codes, w.scales, r, n) else 0.0
  {
    if r < 8 || p.mc == 4 {
      SumExt(w.term(r, n), k => Term(p, w.codes, w.scales, r, n, k), 0, p.K()) by {
        forall k | 0 <= k < p.K()
          ensures w.term(r, n)(k) == Term(p, w.codes, w.scales, r, n, k)
        {
          assert Entry(r, n, k);
        }
      }
    }
  }
}
