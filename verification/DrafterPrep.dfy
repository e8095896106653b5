/** The drafter's input preparation for all KV-cache groups in one launch: programs (request, block) store masked lanes and
    padding into shared buffers, against one launch per group. */
module DrafterPrep {
  import opened Arithmetic

  /** A KV-cache group: its block table (row stride and block size) as the kernel addresses it. */
  datatype Group = Group(table: (nat, nat) -> int, stride: nat, size: nat)

  /** The launch's inputs. slot is cp_local_slot of (position, block id, block size). */
  datatype Batch = Batch(reqs: nat, start: seq<int>, rejected: seq<nat>, sampled: seq<nat>, state: seq<nat>,
                         lastSampled: nat -> int, nextPrefill: nat -> int, positions: int -> nat,
                         temperature: nat -> int, seeds: nat -> int, draftToken: int, nq: nat, ns: nat, anchor: bool,
                         maxReqs: nat, maxTokens: nat, maxLen: nat, groups: seq<Group>, cpSize: nat, slot: (int, int, nat) -> int, pad: int,
                         block: nat, blocks: nat)
  {
    /** Query ranges of the target batch follow each other; no more tokens are rejected than scheduled; every group's table
        has a column; a request's speculative steps are its queries from the first sampled one on; and the blocks cover
        every request's context and queries. */
    ghost predicate Valid() {
      && 0 < reqs <= maxReqs && |start| > reqs && |rejected| >= reqs && |sampled| >= reqs && |state| >= reqs && start[0] >= 0
      && (forall r, s :: 0 <= r <= s <= reqs ==> start[r] <= start[s])
      && (forall r :: 0 <= r < reqs ==> rejected[r] <= start[r + 1] - start[r])
      && (forall g :: 0 <= g < |groups| ==> groups[g].stride > 0 && groups[g].size > 0) && cpSize > 0
      && nq > 0 && nq == ns + Off() && block > 0
      && forall r :: 0 <= r < reqs ==> start[r + 1] - start[r] + nq <= blocks * block
    }

    function Off(): nat { if anchor then 0 else 1 }

    function Ctx(r: nat): int
      requires r < reqs < |start|
    {
      start[r + 1] - start[r]
    }

    function ValidCtx(r: nat): int
      requires r < reqs < |start| && reqs <= |rejected|
    {
      start[r + 1] - rejected[r] - start[r]
    }

    function LastValid(r: nat): nat
      requires r < reqs < |start| && reqs <= |rejected|
    {
      positions(start[r + 1] - rejected[r] - 1)
    }

    function Bonus(r: nat): int
      requires r < reqs && reqs <= |sampled| && reqs <= |state|
    {
      if sampled[r] > 0 then lastSampled(state[r]) else nextPrefill(state[r])
    }

    /** One slot mapping entry: the block of a position, resident when its id is not 0. */
    function SlotOf(g: nat, r: nat, pos: nat, live: bool): int
      requires g < |groups| && groups[g].stride > 0 && groups[g].size > 0 && cpSize > 0
    {
      var gr := groups[g];
      var num := pos / SizeOf(gr);
      var column := if num < gr.stride - 1 then num else gr.stride - 1;
      var id := if live then gr.table(r, column) else 0;
      if live && id != 0 then slot(pos, id, gr.size) else pad
    }

    function SizeOf(gr: Group): (n: nat)
      requires gr.size > 0 && cpSize > 0
      ensures n > 0
    {
      Product(gr.size, cpSize)
    }
  }

  function Product(a: nat, b: nat): (n: nat)
    requires a > 0 && b > 0
    ensures n > 0
  {
    a * b
  }

  /** One element of one output buffer. */
  datatype Cell =
    | InputIds(i: nat) | QueryPos(i: nat) | IsPadding(i: nat) | QuerySlot(g: nat, i: nat)
    | CtxPos(i: nat) | CtxSlot(g: nat, i: nat)
    | QueryStart(i: nat) | SeqLens(i: nat) | Temperature(i: nat) | Seeds(i: nat)
    | SampleIdx(i: nat) | SamplePos(i: nat) | SampleMap(i: nat)

  // ------------------------------------------------------------------ the value of every element

  /** Element i of a per-query buffer: request and offset, below the padding. */
  function QueryValue(b: Batch, x: Cell, r: nat, off: nat): int
    requires b.Valid() && r < b.reqs && off < b.nq && (x.QuerySlot? ==> x.g < |b.groups|)
  {
    var pos := b.LastValid(r) + 1 + off;
    match x
    case InputIds(_) => if off == 0 then b.Bonus(r) else b.draftToken
    case QueryPos(_) => if pos < b.maxLen - 1 then pos else b.maxLen - 1
    case QuerySlot(g, _) => b.SlotOf(g, r, pos, true)
    case _ => 0
  }

  function QueryPad(b: Batch, x: Cell): int {
    match x case IsPadding(_) => 1 case QuerySlot(_, _) => b.pad case _ => 0
  }

  function CtxValue(b: Batch, x: Cell, r: nat, j: nat): int
    requires b.Valid() && r < b.reqs && j < b.Ctx(r) && (x.CtxSlot? ==> x.g < |b.groups|)
  {
    var live := j < b.ValidCtx(r);
    var pos: nat := if live then b.positions(b.start[r] + j) else 0;
    match x
    case CtxSlot(g, _) => b.SlotOf(g, r, pos, live)
    case _ => pos
  }

  function SampleValue(b: Batch, x: Cell, r: nat, o: nat): int
    requires b.Valid() && r < b.reqs && o < b.ns
  {
    var off := o + b.Off();
    var pos := b.LastValid(r) + 1 + off;
    match x
    case SampleIdx(_) => r * b.nq + off
    case SamplePos(_) => if b.anchor then pos + 1 else pos
    case _ => b.state[r]
  }

  function SamplePad(x: Cell): int { if x.SampleMap? then -1 else 0 }

  predicate IsQuery(x: Cell) { x.InputIds? || x.QueryPos? || x.IsPadding? || x.QuerySlot? }
  predicate IsCtx(x: Cell) { x.CtxPos? || x.CtxSlot? }
  predicate IsSample(x: Cell) { x.SampleIdx? || x.SamplePos? || x.SampleMap? }

  /** x is element off of request r's stretch of width n. */
  predicate At(x: Cell, r: nat, n: nat, off: nat) { x.i == r * n + off && off < n }

  /** The groups a launch instantiates. */
  predicate Mine(x: Cell, gs: set<nat>) { (x.QuerySlot? || x.CtxSlot?) ==> x.g in gs }

  // ------------------------------------------------------------------ what a program stores

  ghost predicate GroupsOf(b: Batch, gs: set<nat>) { forall g :: g in gs ==> g < |b.groups| }

  /** Lanes lo .. hi - 1 of request r store v to x: an element of a context, query or sample buffer. */
  ghost predicate CtxStores(b: Batch, gs: set<nat>, r: nat, lo: int, hi: int, x: Cell, v: int)
    requires b.Valid() && r < b.reqs && GroupsOf(b, gs)
  {
    IsCtx(x) && Mine(x, gs) && var j := x.i - b.start[r]; 0 <= j < b.Ctx(r) && lo <= j < hi && v == CtxValue(b, x, r, j)
  }

  ghost predicate QueryStores(b: Batch, gs: set<nat>, r: nat, lo: int, hi: int, x: Cell, v: int)
    requires b.Valid() && r < b.reqs && GroupsOf(b, gs)
  {
    IsQuery(x) && Mine(x, gs) && exists off: nat :: At(x, r, b.nq, off) && lo <= b.ValidCtx(r) + off < hi && v == QueryValue(b, x, r, off)
  }

  ghost predicate SampleStores(b: Batch, r: nat, lo: int, hi: int, x: Cell, v: int)
    requires b.Valid() && r < b.reqs
  {
    IsSample(x) && exists o: nat :: At(x, r, b.ns, o) && lo <= b.ValidCtx(r) + b.Off() + o < hi && v == SampleValue(b, x, r, o)
  }

  ghost predicate LanesStore(b: Batch, gs: set<nat>, r: nat, lo: int, hi: int, x: Cell, v: int)
    requires b.Valid() && r < b.reqs && GroupsOf(b, gs)
  {
    CtxStores(b, gs, r, lo, hi, x, v) || QueryStores(b, gs, r, lo, hi, x, v) || SampleStores(b, r, lo, hi, x, v)
  }

  /** Block 0 of a request stores its scalars. */
  ghost predicate HeadStores(b: Batch, r: nat, x: Cell, v: int)
    requires b.Valid() && r < b.reqs
  {
    match x
    case QueryStart(i) => i == r && v == r * b.nq
    case SeqLens(i) => i == r && v == Lesser(b.LastValid(r) + 1 + b.nq, b.maxLen)
    case Temperature(i) => i == b.state[r] && v == b.temperature(i)
    case Seeds(i) => i == b.state[r] && v == b.seeds(i)
    case _ => false
  }

  function Lesser(x: nat, y: nat): nat { if x < y then x else y }

  /** Block 0 of the last request stores the padding. */
  ghost predicate PadStores(b: Batch, gs: set<nat>, x: Cell, v: int) {
    match x
    case QueryStart(i) => b.reqs <= i <= b.maxReqs && v == b.reqs * b.nq
    case SeqLens(i) => b.reqs <= i < b.maxReqs && v == 0
    case Temperature(_) => false
    case Seeds(_) => false
    case _ =>
      if IsSample(x) then b.reqs * b.ns <= x.i < b.maxReqs * b.ns && v == SamplePad(x)
      else IsQuery(x) && Mine(x, gs) && b.reqs * b.nq <= x.i < b.maxTokens && v == QueryPad(b, x)
  }

  ghost predicate Stores(b: Batch, gs: set<nat>, r: nat, block: nat, x: Cell, v: int)
    requires b.Valid() && r < b.reqs && GroupsOf(b, gs)
  {
    LanesStore(b, gs, r, block * b.block, block * b.block + b.block, x, v) || ScalarStores(b, gs, r, block, x, v)
  }

  /** A program's scalars: its head in block 0, and the padding after the last request's. */
  ghost predicate ScalarStores(b: Batch, gs: set<nat>, r: nat, block: nat, x: Cell, v: int)
    requires b.Valid() && r < b.reqs
  {
    block == 0 && (HeadStores(b, r, x, v) || (r == b.reqs - 1 && PadStores(b, gs, x, v)))
  }

  // ------------------------------------------------------------------ no two programs disagree

  lemma AtUnique(x: Cell, r: nat, s: nat, n: nat, off: nat, off2: nat)
    requires At(x, r, n, off) && At(x, s, n, off2)
    ensures r == s && off == off2
  {
    DivModUnique(x.i, n, r, off);
    DivModUnique(x.i, n, s, off2);
  }

  lemma AtBelow(x: Cell, r: nat, n: nat, off: nat, reqs: nat)
    requires At(x, r, n, off) && r < reqs
    ensures x.i < reqs * n
  {
    assert (r + 1) * n <= reqs * n;
  }

  lemma CtxAgree(b: Batch, gs: set<nat>, hs: set<nat>, r: nat, s: nat, lo: int, hi: int, lo2: int, hi2: int, x: Cell, v: int, w: int)
    requires b.Valid() && r < b.reqs && s < b.reqs && GroupsOf(b, gs) && GroupsOf(b, hs)
    requires CtxStores(b, gs, r, lo, hi, x, v) && CtxStores(b, hs, s, lo2, hi2, x, w)
    ensures v == w
  {
    assert r == s;
  }

  lemma QueryAgree(b: Batch, gs: set<nat>, hs: set<nat>, r: nat, s: nat, lo: int, hi: int, lo2: int, hi2: int, x: Cell, v: int, w: int)
    requires b.Valid() && r < b.reqs && s < b.reqs && GroupsOf(b, gs) && GroupsOf(b, hs)
    requires QueryStores(b, gs, r, lo, hi, x, v) && QueryStores(b, hs, s, lo2, hi2, x, w)
    ensures v == w
  {
    var off: nat :| At(x, r, b.nq, off) && v == QueryValue(b, x, r, off);
    var off2: nat :| At(x, s, b.nq, off2) && w == QueryValue(b, x, s, off2);
    AtUnique(x, r, s, b.nq, off, off2);
  }

  lemma SampleAgree(b: Batch, r: nat, s: nat, lo: int, hi: int, lo2: int, hi2: int, x: Cell, v: int, w: int)
    requires b.Valid() && r < b.reqs && s < b.reqs
    requires SampleStores(b, r, lo, hi, x, v) && SampleStores(b, s, lo2, hi2, x, w)
    ensures v == w
  {
    var o: nat :| At(x, r, b.ns, o) && v == SampleValue(b, x, r, o);
    var o2: nat :| At(x, s, b.ns, o2) && w == SampleValue(b, x, s, o2);
    AtUnique(x, r, s, b.ns, o, o2);
  }

  /** Lanes stay below the padding. */
  lemma LanesBelowPad(b: Batch, gs: set<nat>, hs: set<nat>, r: nat, lo: int, hi: int, x: Cell, v: int, w: int)
    requires b.Valid() && r < b.reqs && GroupsOf(b, gs) && LanesStore(b, gs, r, lo, hi, x, v)
    ensures !PadStores(b, hs, x, w)
  {
    if IsQuery(x) {
      var off: nat :| At(x, r, b.nq, off) && v == QueryValue(b, x, r, off);
      AtBelow(x, r, b.nq, off, b.reqs);
    } else if IsSample(x) {
      var o: nat :| At(x, r, b.ns, o) && v == SampleValue(b, x, r, o);
      AtBelow(x, r, b.ns, o, b.reqs);
    }
  }

  /** Two lanes that store the same element store the same value: they are the same lane of the same request. */
  lemma LanesAgree(b: Batch, gs: set<nat>, hs: set<nat>, r: nat, s: nat, lo: int, hi: int, lo2: int, hi2: int, x: Cell, v: int, w: int)
    requires b.Valid() && r < b.reqs && s < b.reqs && GroupsOf(b, gs) && GroupsOf(b, hs)
    requires LanesStore(b, gs, r, lo, hi, x, v) && LanesStore(b, hs, s, lo2, hi2, x, w)
    ensures v == w
  {
    if IsCtx(x) {
      CtxAgree(b, gs, hs, r, s, lo, hi, lo2, hi2, x, v, w);
    } else if IsQuery(x) {
      QueryAgree(b, gs, hs, r, s, lo, hi, lo2, hi2, x, v, w);
    } else {
      SampleAgree(b, r, s, lo, hi, lo2, hi2, x, v, w);
    }
  }

  lemma ScalarsAgree(b: Batch, gs: set<nat>, hs: set<nat>, r: nat, s: nat, x: Cell, v: int, w: int)
    requires b.Valid() && r < b.reqs && s < b.reqs
    requires HeadStores(b, r, x, v) || PadStores(b, gs, x, v)
    requires HeadStores(b, s, x, w) || PadStores(b, hs, x, w)
    ensures v == w
  {
  }

  lemma LanesAreNoScalars(b: Batch, gs: set<nat>, r: nat, s: nat, lo: int, hi: int, x: Cell, v: int, w: int)
    requires b.Valid() && r < b.reqs && s < b.reqs && GroupsOf(b, gs) && LanesStore(b, gs, r, lo, hi, x, v)
    ensures !HeadStores(b, s, x, w)
  {
  }

  lemma LanesAgreeWith(b: Batch, gs: set<nat>, hs: set<nat>, r: nat, lo: int, hi: int, s: nat, m: nat, x: Cell, v: int, w: int)
    requires b.Valid() && r < b.reqs && s < b.reqs && GroupsOf(b, gs) && GroupsOf(b, hs)
    requires LanesStore(b, gs, r, lo, hi, x, v) && Stores(b, hs, s, m, x, w)
    ensures v == w
  {
    LanesBelowPad(b, gs, hs, r, lo, hi, x, v, w);
    LanesAreNoScalars(b, gs, r, s, lo, hi, x, v, w);
    LanesAgree(b, gs, hs, r, s, lo, hi, m * b.block, m * b.block + b.block, x, v, w);
  }

  lemma ScalarAgrees(b: Batch, gs: set<nat>, hs: set<nat>, r: nat, k: nat, s: nat, m: nat, x: Cell, v: int, w: int)
    requires b.Valid() && r < b.reqs && s < b.reqs && GroupsOf(b, gs) && GroupsOf(b, hs)
    requires ScalarStores(b, gs, r, k, x, v) && Stores(b, hs, s, m, x, w)
    ensures v == w
  {
    if ScalarStores(b, hs, s, m, x, w) {
      ScalarsAgree(b, gs, hs, r, s, x, v, w);
    } else {
      LanesAgreeWith(b, hs, gs, s, m * b.block, m * b.block + b.block, r, k, x, w, v);
    }
  }

  /** Programs never store conflicting values, within a launch or across launches of different groups. */
  lemma StoresAgree(b: Batch, gs: set<nat>, hs: set<nat>, r: nat, k: nat, s: nat, m: nat, x: Cell, v: int, w: int)
    requires b.Valid() && r < b.reqs && s < b.reqs && GroupsOf(b, gs) && GroupsOf(b, hs)
    requires Stores(b, gs, r, k, x, v) && Stores(b, hs, s, m, x, w)
    ensures v == w
  {
    if ScalarStores(b, gs, r, k, x, v) {
      ScalarAgrees(b, gs, hs, r, k, s, m, x, v, w);
    } else {
      LanesAgreeWith(b, gs, hs, r, k * b.block, k * b.block + b.block, s, m, x, v, w);
    }
  }

  // ------------------------------------------------------------------ the ranges are covered

  /** The elements a launch leaves stored, by range: queries and their padding, contexts, samples and their padding, the
      scalars. */
  ghost predicate Touched(b: Batch, gs: set<nat>, x: Cell)
    requires b.Valid()
  {
    && Mine(x, gs)
    && if IsQuery(x) then x.i < b.reqs * b.nq || x.i < b.maxTokens
       else if IsCtx(x) then b.start[0] <= x.i < b.start[b.reqs]
       else if IsSample(x) then x.i < b.maxReqs * b.ns
       else if x.QueryStart? then x.i <= b.maxReqs
       else if x.SeqLens? then x.i < b.maxReqs
       else exists r :: 0 <= r < b.reqs && b.state[r] == x.i
  }

  /** Some program of the launch stores v to x. */
  ghost predicate LaunchStores(b: Batch, gs: set<nat>, x: Cell, v: int)
    requires b.Valid() && GroupsOf(b, gs)
  {
    exists r: nat, k: nat :: r < b.reqs && k < b.blocks && Stores(b, gs, r, k, x, v)
  }

  lemma OneStore(b: Batch, gs: set<nat>, r: nat, k: nat, x: Cell, v: int)
    requires b.Valid() && GroupsOf(b, gs) && r < b.reqs && k < b.blocks && Stores(b, gs, r, k, x, v)
    ensures LaunchStores(b, gs, x, v)
  {
  }

  lemma SomeBlocks(b: Batch)
    requires b.Valid()
    ensures b.blocks > 0
  {
    assert b.start[0] <= b.start[0 + 1];
    assert b.start[0 + 1] - b.start[0] + b.nq <= b.blocks * b.block;
  }

  lemma LaneBlock(b: Batch, lane: nat) returns (k: nat)
    requires b.block > 0 && lane < b.blocks * b.block
    ensures k < b.blocks && k * b.block <= lane < k * b.block + b.block
  {
    k := lane / b.block;
    QuotientBelow(lane, b.block, b.blocks);
  }

  lemma Digits(i: nat, n: nat, reqs: nat) returns (r: nat, off: nat)
    requires n > 0 && i < reqs * n
    ensures r < reqs && off < n && i == r * n + off
  {
    r, off := i / n, i % n;
    QuotientBelow(i, n, reqs);
  }

  lemma QueryStored(b: Batch, gs: set<nat>, x: Cell, r: nat, off: nat)
    requires b.Valid() && GroupsOf(b, gs) && IsQuery(x) && Mine(x, gs) && r < b.reqs && At(x, r, b.nq, off)
    ensures LaunchStores(b, gs, x, QueryValue(b, x, r, off))
  {
    var k := LaneBlock(b, b.ValidCtx(r) + off);
    assert QueryStores(b, gs, r, k * b.block, k * b.block + b.block, x, QueryValue(b, x, r, off));
    OneStore(b, gs, r, k, x, QueryValue(b, x, r, off));
  }

  lemma QueryCovered(b: Batch, gs: set<nat>, x: Cell)
    requires b.Valid() && GroupsOf(b, gs) && IsQuery(x) && Mine(x, gs) && x.i < b.reqs * b.nq
    ensures exists v :: LaunchStores(b, gs, x, v)
  {
    var r, off := Digits(x.i, b.nq, b.reqs);
    QueryStored(b, gs, x, r, off);
  }

  lemma SampleStored(b: Batch, gs: set<nat>, x: Cell, r: nat, o: nat)
    requires b.Valid() && GroupsOf(b, gs) && IsSample(x) && r < b.reqs && At(x, r, b.ns, o)
    ensures LaunchStores(b, gs, x, SampleValue(b, x, r, o))
  {
    var k := LaneBlock(b, b.ValidCtx(r) + b.Off() + o);
    assert SampleStores(b, r, k * b.block, k * b.block + b.block, x, SampleValue(b, x, r, o));
    OneStore(b, gs, r, k, x, SampleValue(b, x, r, o));
  }

  lemma SampleCovered(b: Batch, gs: set<nat>, x: Cell)
    requires b.Valid() && GroupsOf(b, gs) && IsSample(x) && x.i < b.reqs * b.ns
    ensures exists v :: LaunchStores(b, gs, x, v)
  {
    var r, o := Digits(x.i, b.ns, b.reqs);
    SampleStored(b, gs, x, r, o);
  }

  lemma {:induction false} RequestOf(b: Batch, i: nat, n: nat) returns (r: nat)
    requires b.Valid() && n <= b.reqs && b.start[0] <= i < b.start[n]
    ensures r < n && b.start[r] <= i < b.start[r + 1]
  {
    if b.start[n - 1] <= i {
      r := n - 1;
    } else {
      r := RequestOf(b, i, n - 1);
    }
  }

  lemma CtxStored(b: Batch, gs: set<nat>, x: Cell, r: nat, j: nat)
    requires b.Valid() && GroupsOf(b, gs) && IsCtx(x) && Mine(x, gs) && r < b.reqs && j < b.Ctx(r) && x.i == b.start[r] + j
    ensures LaunchStores(b, gs, x, CtxValue(b, x, r, j))
  {
    var k := LaneBlock(b, j);
    assert CtxStores(b, gs, r, k * b.block, k * b.block + b.block, x, CtxValue(b, x, r, j));
    OneStore(b, gs, r, k, x, CtxValue(b, x, r, j));
  }

  lemma CtxCovered(b: Batch, gs: set<nat>, x: Cell)
    requires b.Valid() && GroupsOf(b, gs) && IsCtx(x) && Mine(x, gs) && b.start[0] <= x.i < b.start[b.reqs]
    ensures exists v :: LaunchStores(b, gs, x, v)
  {
    var r := RequestOf(b, x.i, b.reqs);
    CtxStored(b, gs, x, r, x.i - b.start[r]);
  }

  /** Queries, samples, contexts and padding cover their ranges without gaps. */
  lemma RangesCovered(b: Batch, gs: set<nat>, x: Cell)
    requires b.Valid() && GroupsOf(b, gs) && Touched(b, gs, x)
    ensures exists v :: LaunchStores(b, gs, x, v)
  {
    SomeBlocks(b);
    var last := b.reqs - 1;
    if IsQuery(x) {
      if x.i < b.reqs * b.nq {
        QueryCovered(b, gs, x);
      } else {
        OneStore(b, gs, last, 0, x, QueryPad(b, x));
      }
    } else if IsCtx(x) {
      CtxCovered(b, gs, x);
    } else if IsSample(x) {
      if x.i < b.reqs * b.ns {
        SampleCovered(b, gs, x);
      } else {
        OneStore(b, gs, last, 0, x, SamplePad(x));
      }
    } else {
      ScalarCovered(b, gs, x);
    }
  }

  lemma ScalarCovered(b: Batch, gs: set<nat>, x: Cell)
    requires b.Valid() && GroupsOf(b, gs) && b.blocks > 0 && Touched(b, gs, x) && !IsQuery(x) && !IsCtx(x) && !IsSample(x)
    ensures exists v :: LaunchStores(b, gs, x, v)
  {
    match x
    case QueryStart(i) =>
      if i < b.reqs {
        OneStore(b, gs, i, 0, x, i * b.nq);
      } else {
        OneStore(b, gs, b.reqs - 1, 0, x, b.reqs * b.nq);
      }
    case SeqLens(i) =>
      if i < b.reqs {
        OneStore(b, gs, i, 0, x, Lesser(b.LastValid(i) + 1 + b.nq, b.maxLen));
      } else {
        OneStore(b, gs, b.reqs - 1, 0, x, 0);
      }
    case Temperature(i) =>
      var r: nat :| r < b.reqs && b.state[r] == i;
      OneStore(b, gs, r, 0, x, b.temperature(i));
    case Seeds(i) =>
      var r: nat :| r < b.reqs && b.state[r] == i;
      OneStore(b, gs, r, 0, x, b.seeds(i));
    case _ =>
  }

  lemma LanesInRange(b: Batch, gs: set<nat>, r: nat, lo: int, hi: int, x: Cell, v: int)
    requires b.Valid() && GroupsOf(b, gs) && r < b.reqs && LanesStore(b, gs, r, lo, hi, x, v)
    ensures Touched(b, gs, x)
  {
    if IsQuery(x) {
      var off: nat :| At(x, r, b.nq, off) && v == QueryValue(b, x, r, off);
      AtBelow(x, r, b.nq, off, b.reqs);
    } else if IsSample(x) {
      var o: nat :| At(x, r, b.ns, o) && v == SampleValue(b, x, r, o);
      AtBelow(x, r, b.ns, o, b.maxReqs);
    } else {
      assert b.start[0] <= b.start[r] <= x.i < b.start[r + 1] <= b.start[b.reqs];
    }
  }

  lemma ScalarsInRange(b: Batch, gs: set<nat>, r: nat, k: nat, x: Cell, v: int)
    requires b.Valid() && r < b.reqs && ScalarStores(b, gs, r, k, x, v)
    ensures Touched(b, gs, x)
  {
    if HeadStores(b, r, x, v) {
      assert b.state[r] == x.i || x.QueryStart? || x.SeqLens?;
    }
  }

  /** Nothing outside the ranges is stored. */
  lemma NothingElse(b: Batch, gs: set<nat>, r: nat, k: nat, x: Cell, v: int)
    requires b.Valid() && GroupsOf(b, gs) && r < b.reqs && Stores(b, gs, r, k, x, v)
    ensures Touched(b, gs, x)
  {
    var lo, hi := k * b.block, k * b.block + b.block;
    if LanesStore(b, gs, r, lo, hi, x, v) {
      LanesInRange(b, gs, r, lo, hi, x, v);
    } else {
      ScalarsInRange(b, gs, r, k, x, v);
    }
  }

  /** A launch stores exactly its ranges. */
  lemma StoredIsTouched(b: Batch, gs: set<nat>, x: Cell)
    requires b.Valid() && GroupsOf(b, gs)
    ensures (exists v :: LaunchStores(b, gs, x, v)) <==> Touched(b, gs, x)
  {
    if Touched(b, gs, x) {
      RangesCovered(b, gs, x);
    }
    if v :| LaunchStores(b, gs, x, v) {
      var r: nat, k: nat :| r < b.reqs && k < b.blocks && Stores(b, gs, r, k, x, v);
      NothingElse(b, gs, r, k, x, v);
    }
  }

  // ------------------------------------------------------------------ the effect of a set of stores

  /** The device buffers. */
  class Memory {
    var at: Cell -> int

    constructor (f: Cell -> int)
      ensures at == f
    {
      at := f;
    }

    method Store(x: Cell, v: int)
      modifies this
      ensures at(x) == v && forall y :: y != x ==> at(y) == old(at)(y)
    {
      var was := at;
      at := y => if y == x then v else was(y);
    }
  }

  /** Exactly the stores of w have happened since was. */
  ghost predicate Effect(w: (Cell, int) -> bool, was: Cell -> int, now: Cell -> int) {
    forall x {:trigger now(x)} :: (forall v {:trigger w(x, v)} :: w(x, v) ==> now(x) == v) && ((forall v :: !w(x, v)) ==> now(x) == was(x))
  }

  ghost predicate Agree(w: (Cell, int) -> bool, u: (Cell, int) -> bool) {
    forall x, v, v2 {:trigger w(x, v), u(x, v2)} :: w(x, v) && u(x, v2) ==> v == v2
  }

  lemma Compose(w: (Cell, int) -> bool, u: (Cell, int) -> bool, all: (Cell, int) -> bool, a: Cell -> int, m: Cell -> int, c: Cell -> int)
    requires Effect(w, a, m) && Effect(u, m, c) && Agree(w, u)
    requires forall x, v :: all(x, v) <==> w(x, v) || u(x, v)
    ensures Effect(all, a, c)
  {
    forall x
      ensures forall v :: all(x, v) ==> c(x) == v
      ensures (forall v :: !all(x, v)) ==> c(x) == a(x)
    {
      if v :| u(x, v) {
        assert c(x) == v;
        forall v2 | all(x, v2)
          ensures c(x) == v2
        {
          assert w(x, v2) || u(x, v2);
        }
      } else {
        assert c(x) == m(x);
        forall v2 | all(x, v2)
          ensures c(x) == v2
        {
          assert w(x, v2) || u(x, v2);
        }
        if forall v :: !all(x, v) {
          forall v
            ensures !w(x, v)
          {
            assert !all(x, v);
          }
        }
      }
    }
  }

  /** The same stores from the same start leave the same memory. */
  lemma SameEffect(w: (Cell, int) -> bool, u: (Cell, int) -> bool, was: Cell -> int, a: Cell -> int, c: Cell -> int, x: Cell)
    requires Effect(w, was, a) && Effect(u, was, c) && forall v :: w(x, v) <==> u(x, v)
    ensures a(x) == c(x)
  {
    if v :| w(x, v) {
      assert a(x) == v && c(x) == v;
    } else {
      assert a(x) == was(x) && c(x) == was(x);
    }
  }

  // ------------------------------------------------------------------ one program

  /** Whether lane j of request r stores an element, and what. */
  ghost predicate LaneHits(b: Batch, gs: set<nat>, r: nat, j: nat, x: Cell)
    requires b.Valid() && r < b.reqs
  {
    var off := j - b.ValidCtx(r);
    && Mine(x, gs)
    && if IsCtx(x) then x.i == b.start[r] + j && j < b.Ctx(r)
       else if IsQuery(x) then 0 <= off < b.nq && x.i == r * b.nq + off
       else IsSample(x) && b.Off() <= off < b.nq && x.i == r * b.ns + (off - b.Off())
  }

  ghost function LaneValue(b: Batch, gs: set<nat>, r: nat, j: nat, x: Cell): int
    requires b.Valid() && r < b.reqs && GroupsOf(b, gs) && LaneHits(b, gs, r, j, x)
  {
    var off := j - b.ValidCtx(r);
    if IsCtx(x) then CtxValue(b, x, r, j) else if IsQuery(x) then QueryValue(b, x, r, off) else SampleValue(b, x, r, off - b.Off())
  }

  lemma LaneIs(b: Batch, gs: set<nat>, r: nat, j: nat, x: Cell, v: int)
    requires b.Valid() && r < b.reqs && GroupsOf(b, gs)
    ensures LanesStore(b, gs, r, j, j + 1, x, v) <==> LaneHits(b, gs, r, j, x) && v == LaneValue(b, gs, r, j, x)
  {
    var off := j - b.ValidCtx(r);
    if IsQuery(x) && 0 <= off < b.nq {
      assert At(x, r, b.nq, off) <==> x.i == r * b.nq + off;
    }
    if IsSample(x) && b.Off() <= off < b.nq {
      assert At(x, r, b.ns, off - b.Off()) <==> x.i == r * b.ns + (off - b.Off());
    }
  }

  /** Context position of a lane below num_ctx; masked load above num_valid_ctx. */
  method CtxLane(b: Batch, r: nat, j: nat, mem: Memory) returns (pos: nat)
    requires b.Valid() && r < b.reqs
    modifies mem
    ensures j < b.Ctx(r) ==> pos == CtxValue(b, CtxPos(b.start[r] + j), r, j)
    ensures forall x :: mem.at(x) == if x.CtxPos? && x.i == b.start[r] + j && j < b.Ctx(r) then CtxValue(b, x, r, j) else old(mem.at)(x)
  {
    assert b.start[0] <= b.start[r];
    pos := if j < b.ValidCtx(r) then b.positions(b.start[r] + j) else 0;
    if j < b.Ctx(r) {
      mem.Store(CtxPos(b.start[r] + j), pos);
    }
  }

  /** input_ids, is_padding and the clamped position of a query lane. */
  method QueryLane(b: Batch, r: nat, off: nat, mem: Memory)
    requires b.Valid() && r < b.reqs && off < b.nq
    modifies mem
    ensures forall x :: mem.at(x) == if (x.InputIds? || x.QueryPos? || x.IsPadding?) && x.i == r * b.nq + off then QueryValue(b, x, r, off) else old(mem.at)(x)
  {
    var i := r * b.nq + off;
    var pos := b.LastValid(r) + 1 + off;
    mem.Store(InputIds(i), if off == 0 then b.Bonus(r) else b.draftToken);
    mem.Store(IsPadding(i), 0);
    mem.Store(QueryPos(i), if pos < b.maxLen - 1 then pos else b.maxLen - 1);
  }

  method SampleLane(b: Batch, r: nat, o: nat, mem: Memory)
    requires b.Valid() && r < b.reqs && o < b.ns
    modifies mem
    ensures forall x :: mem.at(x) == if IsSample(x) && x.i == r * b.ns + o then SampleValue(b, x, r, o) else old(mem.at)(x)
  {
    var i, off := r * b.ns + o, o + b.Off();
    var pos := b.LastValid(r) + 1 + off;
    mem.Store(SampleIdx(i), r * b.nq + off);
    mem.Store(SamplePos(i), if b.anchor then pos + 1 else pos);
    mem.Store(SampleMap(i), b.state[r]);
  }

  /** _moet_dflash_group_slots for one group and lane. */
  method GroupSlots(b: Batch, g: nat, r: nat, j: nat, pos: nat, mem: Memory)
    requires b.Valid() && r < b.reqs && g < |b.groups|
    requires j < b.Ctx(r) ==> pos == CtxValue(b, CtxPos(b.start[r] + j), r, j)
    modifies mem
    ensures forall x: Cell :: (x.CtxSlot? || x.QuerySlot?) && x.g == g && LaneHits(b, {g}, r, j, x) ==> mem.at(x) == LaneValue(b, {g}, r, j, x)
    ensures forall x: Cell :: !((x.CtxSlot? || x.QuerySlot?) && x.g == g && LaneHits(b, {g}, r, j, x)) ==> mem.at(x) == old(mem.at)(x)
  {
    assert b.start[0] <= b.start[r];
    if j < b.Ctx(r) {
      mem.Store(CtxSlot(g, b.start[r] + j), b.SlotOf(g, r, pos, j < b.ValidCtx(r)));
    }
    var off := j - b.ValidCtx(r);
    if 0 <= off < b.nq {
      mem.Store(QuerySlot(g, r * b.nq + off), b.SlotOf(g, r, b.LastValid(r) + 1 + off, true));
    }
  }

  /** All stores of one lane. */
  method Lane(b: Batch, gs: set<nat>, r: nat, j: nat, mem: Memory)
    requires b.Valid() && r < b.reqs && GroupsOf(b, gs)
    modifies mem
    ensures forall x :: mem.at(x) == if LaneHits(b, gs, r, j, x) then LaneValue(b, gs, r, j, x) else old(mem.at)(x)
  {
    var pos := CtxLane(b, r, j, mem);
    var off := j - b.ValidCtx(r);
    if 0 <= off < b.nq {
      QueryLane(b, r, off, mem);
    }
    ghost var shared := mem.at;
    for g := 0 to |b.groups|
      invariant forall x :: Slotted(x) && x.g < g && LaneHits(b, gs, r, j, x) ==> mem.at(x) == LaneValue(b, gs, r, j, x)
      invariant forall x :: !(Slotted(x) && x.g < g && LaneHits(b, gs, r, j, x)) ==> mem.at(x) == shared(x)
    {
      if g in gs {
        GroupSlots(b, g, r, j, pos, mem);
      }
    }
    if b.Off() <= off < b.nq {
      SampleLane(b, r, off - b.Off(), mem);
    }
  }

  predicate Slotted(x: Cell) { x.CtxSlot? || x.QuerySlot? }

  /** The stores of some lanes, of a request's head, of the padding, as sets. */
  ghost function Lanes(b: Batch, gs: set<nat>, r: nat, lo: int, hi: int): (Cell, int) -> bool
    requires b.Valid() && r < b.reqs && GroupsOf(b, gs)
  {
    (x, v) => LanesStore(b, gs, r, lo, hi, x, v)
  }

  ghost function Program(b: Batch, gs: set<nat>, r: nat, k: nat): (Cell, int) -> bool
    requires b.Valid() && r < b.reqs && GroupsOf(b, gs)
  {
    (x, v) => Stores(b, gs, r, k, x, v)
  }

  lemma LaneEffect(b: Batch, gs: set<nat>, r: nat, j: nat, was: Cell -> int, now: Cell -> int)
    requires b.Valid() && r < b.reqs && GroupsOf(b, gs)
    requires forall x :: now(x) == if LaneHits(b, gs, r, j, x) then LaneValue(b, gs, r, j, x) else was(x)
    ensures Effect(Lanes(b, gs, r, j, j + 1), was, now)
  {
    var w := Lanes(b, gs, r, j, j + 1);
    forall x, v
      ensures w(x, v) <==> LaneHits(b, gs, r, j, x) && v == LaneValue(b, gs, r, j, x)
    {
      LaneIs(b, gs, r, j, x, v);
    }
    forall x | LaneHits(b, gs, r, j, x)
      ensures !(forall v :: !w(x, v))
    {
      assert w(x, LaneValue(b, gs, r, j, x));
    }
  }

  lemma LanesNext(b: Batch, gs: set<nat>, r: nat, lo: nat, j: nat, x: Cell, v: int)
    requires b.Valid() && r < b.reqs && GroupsOf(b, gs) && lo <= j
    ensures LanesStore(b, gs, r, lo, j + 1, x, v) <==> LanesStore(b, gs, r, lo, j, x, v) || LanesStore(b, gs, r, j, j + 1, x, v)
  {
  }

  lemma LanesCompose(b: Batch, gs: set<nat>, r: nat, lo: nat, j: nat, a: Cell -> int, m: Cell -> int, c: Cell -> int)
    requires b.Valid() && r < b.reqs && GroupsOf(b, gs) && lo <= j
    requires Effect(Lanes(b, gs, r, lo, j), a, m) && Effect(Lanes(b, gs, r, j, j + 1), m, c)
    ensures Effect(Lanes(b, gs, r, lo, j + 1), a, c)
  {
    var w, u, all := Lanes(b, gs, r, lo, j), Lanes(b, gs, r, j, j + 1), Lanes(b, gs, r, lo, j + 1);
    forall x, v
      ensures all(x, v) <==> w(x, v) || u(x, v)
    {
      LanesNext(b, gs, r, lo, j, x, v);
    }
    forall x, v, v2 | w(x, v) && u(x, v2)
      ensures v == v2
    {
      LanesAgree(b, gs, gs, r, r, lo, j, j, j + 1, x, v, v2);
    }
    Compose(w, u, all, a, m, c);
  }

  /** The lanes of a block. */
  method BlockLanes(b: Batch, gs: set<nat>, r: nat, k: nat, mem: Memory)
    requires b.Valid() && r < b.reqs && GroupsOf(b, gs)
    modifies mem
    ensures Effect(Lanes(b, gs, r, k * b.block, k * b.block + b.block), old(mem.at), mem.at)
  {
    var lo := k * b.block;
    ghost var was := mem.at;
    for j := lo to lo + b.block
      invariant Effect(Lanes(b, gs, r, lo, j), was, mem.at)
    {
      ghost var before := mem.at;
      Lane(b, gs, r, j, mem);
      LaneEffect(b, gs, r, j, before, mem.at);
      LanesCompose(b, gs, r, lo, j, was, before, mem.at);
    }
  }

  // ------------------------------------------------------------------ heads, padding, launches

  method Head(b: Batch, r: nat, mem: Memory)
    requires b.Valid() && r < b.reqs
    modifies mem
    ensures Effect((x, v) => HeadStores(b, r, x, v), old(mem.at), mem.at)
  {
    ghost var was := mem.at;
    mem.Store(QueryStart(r), r * b.nq);
    mem.Store(SeqLens(r), Lesser(b.LastValid(r) + 1 + b.nq, b.maxLen));
    mem.Store(Temperature(b.state[r]), b.temperature(b.state[r]));
    mem.Store(Seeds(b.state[r]), b.seeds(b.state[r]));
    ghost var w: (Cell, int) -> bool := (x, v) => HeadStores(b, r, x, v);
    assert w(QueryStart(r), r * b.nq) && w(SeqLens(r), Lesser(b.LastValid(r) + 1 + b.nq, b.maxLen));
    assert w(Temperature(b.state[r]), b.temperature(b.state[r])) && w(Seeds(b.state[r]), b.seeds(b.state[r]));
  }

  /** The four stretches of padding. */
  datatype Stretch = Starts | Lens | Samples | Queries {
    function From(b: Batch): nat { match this case Samples => b.reqs * b.ns case Queries => b.reqs * b.nq case _ => b.reqs }
    function To(b: Batch): nat {
      match this case Starts => b.maxReqs + 1 case Lens => b.maxReqs case Samples => b.maxReqs * b.ns case Queries => b.maxTokens
    }
    predicate Has(x: Cell) { match this case Starts => x.QueryStart? case Lens => x.SeqLens? case Samples => IsSample(x) case Queries => IsQuery(x) }
    function Value(b: Batch, x: Cell): int {
      match this case Starts => b.reqs * b.nq case Lens => 0 case Samples => SamplePad(x) case Queries => QueryPad(b, x)
    }
  }

  /** One element index of a stretch, in every buffer it pads. */
  method PadOne(b: Batch, gs: set<nat>, p: Stretch, i: nat, mem: Memory)
    requires GroupsOf(b, gs)
    modifies mem
    ensures forall x :: mem.at(x) == if p.Has(x) && Mine(x, gs) && x.i == i then p.Value(b, x) else old(mem.at)(x)
  {
    match p
    case Starts => mem.Store(QueryStart(i), b.reqs * b.nq);
    case Lens => mem.Store(SeqLens(i), 0);
    case Samples =>
      mem.Store(SampleIdx(i), 0);
      mem.Store(SamplePos(i), 0);
      mem.Store(SampleMap(i), -1);
    case Queries =>
      mem.Store(InputIds(i), 0);
      mem.Store(QueryPos(i), 0);
      mem.Store(IsPadding(i), 1);
      ghost var was := mem.at;
      for g := 0 to |b.groups|
        invariant forall x :: mem.at(x) == if x.QuerySlot? && x.g in gs && x.g < g && x.i == i then b.pad else was(x)
      {
        if g in gs {
          mem.Store(QuerySlot(g, i), b.pad);
        }
      }
  }

  /** for i in range(from, to, BLOCK): a masked block at a time. */
  method PadStretch(b: Batch, gs: set<nat>, p: Stretch, mem: Memory)
    requires GroupsOf(b, gs) && b.block > 0
    modifies mem
    ensures forall x :: mem.at(x) == if p.Has(x) && Mine(x, gs) && p.From(b) <= x.i < p.To(b) then p.Value(b, x) else old(mem.at)(x)
  {
    var i := p.From(b);
    while i < p.To(b)
      invariant p.From(b) <= i
      invariant forall x :: mem.at(x) == if p.Has(x) && Mine(x, gs) && p.From(b) <= x.i < i && x.i < p.To(b) then p.Value(b, x) else old(mem.at)(x)
    {
      for k := 0 to b.block
        invariant forall x :: mem.at(x) == if p.Has(x) && Mine(x, gs) && p.From(b) <= x.i < i + k && x.i < p.To(b) then p.Value(b, x) else old(mem.at)(x)
      {
        if i + k < p.To(b) {
          PadOne(b, gs, p, i + k, mem);
        }
      }
      i := i + b.block;
    }
  }

  method Pad(b: Batch, gs: set<nat>, mem: Memory)
    requires b.Valid() && GroupsOf(b, gs)
    modifies mem
    ensures Effect((x, v) => PadStores(b, gs, x, v), old(mem.at), mem.at)
  {
    ghost var was := mem.at;
    PadStretch(b, gs, Starts, mem);
    PadStretch(b, gs, Lens, mem);
    PadStretch(b, gs, Samples, mem);
    PadStretch(b, gs, Queries, mem);
    PadEffect(b, gs, was, mem.at);
  }

  function StretchOf(x: Cell): Stretch {
    if x.QueryStart? then Starts else if x.SeqLens? then Lens else if IsSample(x) then Samples else Queries
  }

  lemma PadIs(b: Batch, gs: set<nat>, x: Cell, v: int)
    ensures PadStores(b, gs, x, v) <==>
      StretchOf(x).Has(x) && Mine(x, gs) && StretchOf(x).From(b) <= x.i < StretchOf(x).To(b) && v == StretchOf(x).Value(b, x)
  {
  }

  lemma PadEffect(b: Batch, gs: set<nat>, was: Cell -> int, now: Cell -> int)
    requires forall x :: now(x) == if StretchOf(x).Has(x) && Mine(x, gs) && StretchOf(x).From(b) <= x.i < StretchOf(x).To(b)
                                   then StretchOf(x).Value(b, x) else was(x)
    ensures Effect((x, v) => PadStores(b, gs, x, v), was, now)
  {
    var w: (Cell, int) -> bool := (x, v) => PadStores(b, gs, x, v);
    forall x, v
      ensures w(x, v) <==> StretchOf(x).Has(x) && Mine(x, gs) && StretchOf(x).From(b) <= x.i < StretchOf(x).To(b) && v == StretchOf(x).Value(b, x)
    {
      PadIs(b, gs, x, v);
    }
    forall x | StretchOf(x).Has(x) && Mine(x, gs) && StretchOf(x).From(b) <= x.i < StretchOf(x).To(b)
      ensures !(forall v :: !w(x, v))
    {
      assert w(x, StretchOf(x).Value(b, x));
    }
  }

  // ------------------------------------------------------------------ programs in any order

  ghost function HeadOf(b: Batch, r: nat): (Cell, int) -> bool
    requires b.Valid() && r < b.reqs
  {
    (x, v) => HeadStores(b, r, x, v)
  }

  ghost function PadOf(b: Batch, gs: set<nat>): (Cell, int) -> bool {
    (x, v) => PadStores(b, gs, x, v)
  }

  ghost function Scalars(b: Batch, gs: set<nat>, r: nat, k: nat): (Cell, int) -> bool
    requires b.Valid() && r < b.reqs
  {
    (x, v) => ScalarStores(b, gs, r, k, x, v)
  }

  lemma NoStores(w: (Cell, int) -> bool, m: Cell -> int)
    requires forall x, v :: !w(x, v)
    ensures Effect(w, m, m)
  {
  }

  /** if block_idx == 0: ... if req_idx == num_reqs - 1: ... */
  method RunScalars(b: Batch, gs: set<nat>, r: nat, k: nat, mem: Memory)
    requires b.Valid() && GroupsOf(b, gs) && r < b.reqs
    modifies mem
    ensures Effect(Scalars(b, gs, r, k), old(mem.at), mem.at)
  {
    ghost var all := Scalars(b, gs, r, k);
    if k != 0 {
      NoStores(all, mem.at);
      return;
    }
    ghost var was := mem.at;
    Head(b, r, mem);
    ghost var w, u := HeadOf(b, r), PadOf(b, gs);
    assert Effect(w, was, mem.at);
    if r != b.reqs - 1 {
      SameSet(w, all, was, mem.at);
      return;
    }
    ghost var headed := mem.at;
    Pad(b, gs, mem);
    assert Effect(u, headed, mem.at);
    forall x, v, v2 | w(x, v) && u(x, v2)
      ensures v == v2
    {
      ScalarsAgree(b, gs, gs, r, r, x, v, v2);
    }
    Compose(w, u, all, was, headed, mem.at);
  }

  lemma SameSet(w: (Cell, int) -> bool, u: (Cell, int) -> bool, was: Cell -> int, now: Cell -> int)
    requires Effect(w, was, now) && forall x, v :: w(x, v) <==> u(x, v)
    ensures Effect(u, was, now)
  {
    forall x | forall v :: !u(x, v)
      ensures now(x) == was(x)
    {
      forall v
        ensures !w(x, v)
      {
        assert !u(x, v);
      }
    }
  }

  /** One program stores exactly what Stores says, whatever memory it starts from. */
  method RunProgram(b: Batch, gs: set<nat>, r: nat, k: nat, mem: Memory)
    requires b.Valid() && GroupsOf(b, gs) && r < b.reqs
    modifies mem
    ensures Effect(Program(b, gs, r, k), old(mem.at), mem.at)
  {
    ghost var was := mem.at;
    ghost var lo, hi := k * b.block, k * b.block + b.block;
    BlockLanes(b, gs, r, k, mem);
    ghost var middle := mem.at;
    RunScalars(b, gs, r, k, mem);
    ghost var w, u := Lanes(b, gs, r, lo, hi), Scalars(b, gs, r, k);
    forall x, v, v2 | w(x, v)
      ensures !u(x, v2)
    {
      LanesBelowPad(b, gs, gs, r, lo, hi, x, v, v2);
      LanesAreNoScalars(b, gs, r, r, lo, hi, x, v, v2);
    }
    Compose(w, u, Program(b, gs, r, k), was, middle, mem.at);
  }

  /** An order in which every program of the grid runs (at least) once. */
  ghost predicate InGrid(b: Batch, order: seq<(nat, nat)>) { forall i :: 0 <= i < |order| ==> order[i].0 < b.reqs && order[i].1 < b.blocks }

  ghost predicate Schedule(b: Batch, order: seq<(nat, nat)>) {
    InGrid(b, order) && forall r: nat, k: nat :: r < b.reqs && k < b.blocks ==> (r, k) in order
  }

  /** The stores of the first n programs of an order. */
  ghost predicate RanStores(b: Batch, gs: set<nat>, order: seq<(nat, nat)>, n: nat, x: Cell, v: int)
    requires b.Valid() && GroupsOf(b, gs) && InGrid(b, order) && n <= |order|
  {
    exists i :: 0 <= i < n && Stores(b, gs, order[i].0, order[i].1, x, v)
  }

  ghost function Ran(b: Batch, gs: set<nat>, order: seq<(nat, nat)>, n: nat): (Cell, int) -> bool
    requires b.Valid() && GroupsOf(b, gs) && InGrid(b, order) && n <= |order|
  {
    (x, v) => RanStores(b, gs, order, n, x, v)
  }

  ghost function LaunchOf(b: Batch, gs: set<nat>): (Cell, int) -> bool
    requires b.Valid() && GroupsOf(b, gs)
  {
    (x, v) => LaunchStores(b, gs, x, v)
  }

  lemma RanNext(b: Batch, gs: set<nat>, order: seq<(nat, nat)>, n: nat, was: Cell -> int, m: Cell -> int, now: Cell -> int)
    requires b.Valid() && GroupsOf(b, gs) && InGrid(b, order) && n < |order|
    requires Effect(Ran(b, gs, order, n), was, m) && Effect(Program(b, gs, order[n].0, order[n].1), m, now)
    ensures Effect(Ran(b, gs, order, n + 1), was, now)
  {
    var w, u, all := Ran(b, gs, order, n), Program(b, gs, order[n].0, order[n].1), Ran(b, gs, order, n + 1);
    forall x, v, v2 | w(x, v) && u(x, v2)
      ensures v == v2
    {
      var i :| 0 <= i < n && Stores(b, gs, order[i].0, order[i].1, x, v);
      StoresAgree(b, gs, gs, order[i].0, order[i].1, order[n].0, order[n].1, x, v, v2);
    }
    Compose(w, u, all, was, m, now);
  }

  lemma RanAll(b: Batch, gs: set<nat>, order: seq<(nat, nat)>, x: Cell, v: int)
    requires b.Valid() && GroupsOf(b, gs) && Schedule(b, order)
    ensures RanStores(b, gs, order, |order|, x, v) <==> LaunchStores(b, gs, x, v)
  {
    if LaunchStores(b, gs, x, v) {
      var r: nat, k: nat :| r < b.reqs && k < b.blocks && Stores(b, gs, r, k, x, v);
      var pair := (r, k);
      assert pair in order;
      var i :| 0 <= i < |order| && order[i] == pair;
      assert Stores(b, gs, order[i].0, order[i].1, x, v);
    }
  }

  lemma RanIsLaunch(b: Batch, gs: set<nat>, order: seq<(nat, nat)>, was: Cell -> int, now: Cell -> int)
    requires b.Valid() && GroupsOf(b, gs) && Schedule(b, order) && Effect(Ran(b, gs, order, |order|), was, now)
    ensures Effect(LaunchOf(b, gs), was, now)
  {
    var w, u := Ran(b, gs, order, |order|), LaunchOf(b, gs);
    forall x, v
      ensures w(x, v) <==> u(x, v)
    {
      RanAll(b, gs, order, x, v);
    }
    SameSet(w, u, was, now);
  }

  method RunNext(b: Batch, gs: set<nat>, order: seq<(nat, nat)>, n: nat, ghost was: Cell -> int, mem: Memory)
    requires b.Valid() && GroupsOf(b, gs) && InGrid(b, order) && n < |order| && Effect(Ran(b, gs, order, n), was, mem.at)
    modifies mem
    ensures Effect(Ran(b, gs, order, n + 1), was, mem.at)
  {
    ghost var before := mem.at;
    RunProgram(b, gs, order[n].0, order[n].1, mem);
    RanNext(b, gs, order, n, was, before, mem.at);
  }

  /** One launch, its programs run in any order: its effect does not depend on the order. */
  method Launch(b: Batch, gs: set<nat>, order: seq<(nat, nat)>, mem: Memory)
    requires b.Valid() && GroupsOf(b, gs) && Schedule(b, order)
    modifies mem
    ensures Effect(LaunchOf(b, gs), old(mem.at), mem.at)
  {
    ghost var was := mem.at;
    NoStores(Ran(b, gs, order, 0), mem.at);
    for n := 0 to |order|
      invariant Effect(Ran(b, gs, order, n), was, mem.at)
    {
      RunNext(b, gs, order, n, was, mem);
    }
    RanIsLaunch(b, gs, order, was, mem.at);
  }

  // ------------------------------------------------------------------ the grid

  function NextPowerOfTwo(n: nat, p: nat): (q: nat)
    requires p > 0
    ensures q >= n && q >= p
    decreases n - p
  {
    if p >= n then p else NextPowerOfTwo(n, 2 * p)
  }

  function CeilDiv(a: nat, b: nat): (q: nat)
    requires b > 0
    ensures a <= q * b < a + b
  {
    (a + b - 1) / b
  }

  /** The launcher's block size and count: every request's tokens and queries fit, and the last block is not idle for the
      longest request. */
  method GridSize(scheduled: seq<nat>, nq: nat) returns (block: nat, blocks: nat)
    requires |scheduled| > 0
    ensures 0 < block <= 256
    ensures forall r :: 0 <= r < |scheduled| ==> scheduled[r] + nq <= blocks * block
    ensures exists r :: 0 <= r < |scheduled| && blocks * block < scheduled[r] + nq + block
  {
    var longest, at := scheduled[0], 0;
    for r := 1 to |scheduled|
      invariant 0 <= at < r && scheduled[at] == longest
      invariant forall s :: 0 <= s < r ==> scheduled[s] <= longest
    {
      if scheduled[r] > longest {
        longest, at := scheduled[r], r;
      }
    }
    var tokens := longest + nq;
    block := Lesser(256, NextPowerOfTwo(if tokens > 1 then tokens else 1, 1));
    blocks := CeilDiv(tokens, block);
    assert scheduled[at] + nq == tokens;
  }

  // ------------------------------------------------------------------ fused launch against one launch per group

  function Groups(n: nat): (gs: set<nat>)
    ensures forall g: nat :: g in gs <==> g < n
  {
    if n == 0 then {} else Groups(n - 1) + {n - 1}
  }

  lemma RegroupLanes(b: Batch, gs: set<nat>, hs: set<nat>, r: nat, lo: int, hi: int, x: Cell, v: int)
    requires b.Valid() && GroupsOf(b, gs) && GroupsOf(b, hs) && r < b.reqs && LanesStore(b, gs, r, lo, hi, x, v) && Mine(x, hs)
    ensures LanesStore(b, hs, r, lo, hi, x, v)
  {
  }

  /** What a program stores to an element does not depend on which other groups its launch instantiates. */
  lemma Regroup(b: Batch, gs: set<nat>, hs: set<nat>, r: nat, k: nat, x: Cell, v: int)
    requires b.Valid() && GroupsOf(b, gs) && GroupsOf(b, hs) && r < b.reqs && Stores(b, gs, r, k, x, v) && Mine(x, hs)
    ensures Stores(b, hs, r, k, x, v)
  {
    var lo, hi := k * b.block, k * b.block + b.block;
    if LanesStore(b, gs, r, lo, hi, x, v) {
      RegroupLanes(b, gs, hs, r, lo, hi, x, v);
    }
  }

  lemma StoresMine(b: Batch, gs: set<nat>, r: nat, k: nat, x: Cell, v: int)
    requires b.Valid() && GroupsOf(b, gs) && r < b.reqs && Stores(b, gs, r, k, x, v)
    ensures Mine(x, gs)
  {
  }

  lemma RegroupLaunch(b: Batch, gs: set<nat>, hs: set<nat>, x: Cell, v: int)
    requires b.Valid() && GroupsOf(b, gs) && GroupsOf(b, hs) && Mine(x, hs) && LaunchStores(b, gs, x, v)
    ensures LaunchStores(b, hs, x, v) && Mine(x, gs)
  {
    var r: nat, k: nat :| r < b.reqs && k < b.blocks && Stores(b, gs, r, k, x, v);
    StoresMine(b, gs, r, k, x, v);
    Regroup(b, gs, hs, r, k, x, v);
    OneStore(b, hs, r, k, x, v);
  }

  /** The launch of the first n + 1 groups stores what the first n groups' and group n's launches together store. */
  lemma LaunchSplit(b: Batch, n: nat, x: Cell, v: int)
    requires b.Valid() && 0 < n < |b.groups|
    ensures LaunchStores(b, Groups(n + 1), x, v) <==> LaunchStores(b, Groups(n), x, v) || LaunchStores(b, {n}, x, v)
  {
    var all, part := Groups(n + 1), Groups(n);
    if LaunchStores(b, all, x, v) {
      RegroupLaunch(b, all, if Mine(x, part) then part else {n}, x, v);
    } else if LaunchStores(b, part, x, v) {
      RegroupLaunch(b, part, all, x, v);
    } else if LaunchStores(b, {n}, x, v) {
      RegroupLaunch(b, {n}, all, x, v);
    }
  }

  lemma LaunchesAgree(b: Batch, gs: set<nat>, hs: set<nat>, x: Cell, v: int, v2: int)
    requires b.Valid() && GroupsOf(b, gs) && GroupsOf(b, hs) && LaunchStores(b, gs, x, v) && LaunchStores(b, hs, x, v2)
    ensures v == v2
  {
    var r: nat, k: nat :| r < b.reqs && k < b.blocks && Stores(b, gs, r, k, x, v);
    var s: nat, m: nat :| s < b.reqs && m < b.blocks && Stores(b, hs, s, m, x, v2);
    StoresAgree(b, gs, hs, r, k, s, m, x, v, v2);
  }

  lemma LaunchNext(b: Batch, n: nat, was: Cell -> int, m: Cell -> int, now: Cell -> int)
    requires b.Valid() && 0 < n < |b.groups|
    requires Effect(LaunchOf(b, Groups(n)), was, m) && Effect(LaunchOf(b, {n}), m, now)
    ensures Effect(LaunchOf(b, Groups(n + 1)), was, now)
  {
    var w, u, all := LaunchOf(b, Groups(n)), LaunchOf(b, {n}), LaunchOf(b, Groups(n + 1));
    forall x, v
      ensures all(x, v) <==> w(x, v) || u(x, v)
    {
      LaunchSplit(b, n, x, v);
    }
    forall x, v, v2 | w(x, v) && u(x, v2)
      ensures v == v2
    {
      LaunchesAgree(b, Groups(n), {n}, x, v, v2);
    }
    Compose(w, u, all, was, m, now);
  }

  /** Single stores one after another. */
  function Applied(was: Cell -> int, stores: seq<(Cell, int)>): Cell -> int {
    if stores == [] then was
    else
      var now, x, v := Applied(was, stores[..|stores| - 1]), stores[|stores| - 1].0, stores[|stores| - 1].1;
      y => if y == x then v else now(y)
  }

  /** The content of an element is the value of some store to it, if there is one. */
  lemma {:induction false} AppliedAt(was: Cell -> int, stores: seq<(Cell, int)>, x: Cell)
    ensures if exists i :: 0 <= i < |stores| && stores[i].0 == x then (x, Applied(was, stores)(x)) in stores else Applied(was, stores)(x) == was(x)
  {
    if stores != [] {
      var rest, last := stores[..|stores| - 1], stores[|stores| - 1];
      AppliedAt(was, rest, x);
      if last.0 == x {
        assert stores[|stores| - 1] == (x, Applied(was, stores)(x));
      } else if i :| 0 <= i < |rest| && rest[i].0 == x {
        assert stores[i].0 == x && (x, Applied(was, rest)(x)) in rest;
      }
    }
  }

  lemma NoStoreTo(stores: seq<(Cell, int)>, x: Cell, v: int)
    requires forall i :: 0 <= i < |stores| ==> stores[i].0 != x
    ensures (x, v) !in stores
  {
  }

  /** Programs may interleave store by store: any list of the launch's stores that misses none has the launch's effect. */
  lemma AnyInterleaving(b: Batch, gs: set<nat>, was: Cell -> int, stores: seq<(Cell, int)>)
    requires b.Valid() && GroupsOf(b, gs)
    requires forall i :: 0 <= i < |stores| ==> LaunchStores(b, gs, stores[i].0, stores[i].1)
    requires forall x, v :: LaunchStores(b, gs, x, v) ==> (x, v) in stores
    ensures Effect(LaunchOf(b, gs), was, Applied(was, stores))
  {
    var w, now := LaunchOf(b, gs), Applied(was, stores);
    forall x
      ensures forall v :: w(x, v) ==> now(x) == v
      ensures (forall v :: !w(x, v)) ==> now(x) == was(x)
    {
      AppliedAt(was, stores, x);
      if i :| 0 <= i < |stores| && stores[i].0 == x {
        assert LaunchStores(b, gs, x, now(x));
        assert w(x, now(x));
        forall v | w(x, v)
          ensures now(x) == v
        {
          LaunchesAgree(b, gs, gs, x, now(x), v);
        }
      } else {
        forall v
          ensures !w(x, v)
        {
          NoStoreTo(stores, x, v);
        }
      }
    }
  }

  method LaunchGroup(b: Batch, g: nat, order: seq<(nat, nat)>, ghost was: Cell -> int, mem: Memory)
    requires b.Valid() && 0 < g < |b.groups| && Schedule(b, order) && Effect(LaunchOf(b, Groups(g)), was, mem.at)
    modifies mem
    ensures Effect(LaunchOf(b, Groups(g + 1)), was, mem.at)
  {
    ghost var before := mem.at;
    Launch(b, {g}, order, mem);
    LaunchNext(b, g, was, before, mem.at);
  }

  /** The loop the fused launch replaces: the one-group kernel for each group in turn, each with its own order. */
  method LaunchPerGroup(b: Batch, orders: seq<seq<(nat, nat)>>, mem: Memory)
    requires b.Valid() && 0 < |b.groups| == |orders| && forall g :: 0 <= g < |orders| ==> Schedule(b, orders[g])
    modifies mem
    ensures Effect(LaunchOf(b, Groups(|b.groups|)), old(mem.at), mem.at)
  {
    ghost var was := mem.at;
    Launch(b, {0}, orders[0], mem);
    assert Groups(1) == {0};
    for g := 1 to |b.groups|
      invariant Effect(LaunchOf(b, Groups(g)), was, mem.at)
    {
      LaunchGroup(b, g, orders[g], was, mem);
    }
  }

  // ------------------------------------------------------------------ what the buffers hold, said of the inputs

  /** v is the slot of a position in group g: the pad slot when the position's block, or the last one of the table, has id 0. */
  ghost predicate SlotIs(b: Batch, g: nat, r: nat, pos: nat, v: int)
    requires b.Valid() && g < |b.groups|
  {
    var gr := b.groups[g];
    var num := pos / (gr.size * b.cpSize);
    var id := gr.table(r, if num < gr.stride then num else gr.stride - 1);
    v == if id == 0 then b.pad else b.slot(pos, id, gr.size)
  }

  /** Query off of request r: the token sampled last, or the next prefill token when none was sampled, then draft tokens; the
      positions behind the last accepted token, kept below maxLen. */
  ghost predicate TokenIs(b: Batch, at: Cell -> int, r: nat, off: nat)
    requires b.Valid() && r < b.reqs && off < b.nq
  {
    var i, pos := r * b.nq + off, b.positions(b.start[r + 1] - b.rejected[r] - 1) + 1 + off;
    && (off > 0 ==> at(InputIds(i)) == b.draftToken)
    && (off == 0 && b.sampled[r] > 0 ==> at(InputIds(i)) == b.lastSampled(b.state[r]))
    && (off == 0 && b.sampled[r] == 0 ==> at(InputIds(i)) == b.nextPrefill(b.state[r]))
    && (at(QueryPos(i)) == if pos < b.maxLen then pos else b.maxLen - 1)
    && at(IsPadding(i)) == 0
  }

  /** ... and its slot in every group, of the position as it is. */
  ghost predicate QueryIs(b: Batch, at: Cell -> int, r: nat, off: nat)
    requires b.Valid() && r < b.reqs && off < b.nq
  {
    TokenIs(b, at, r, off) && forall g: nat :: g < |b.groups| ==> QuerySlotIs(b, at, r, off, g)
  }

  ghost predicate QuerySlotIs(b: Batch, at: Cell -> int, r: nat, off: nat, g: nat)
    requires b.Valid() && r < b.reqs && off < b.nq && g < |b.groups|
  {
    SlotIs(b, g, r, b.positions(b.start[r + 1] - b.rejected[r] - 1) + 1 + off, at(QuerySlot(g, r * b.nq + off)))
  }

  /** Token i of request r's context: its position and slots, zero and pad once rejected. */
  ghost predicate ContextIs(b: Batch, at: Cell -> int, r: nat, i: nat)
    requires b.Valid() && r < b.reqs && b.start[r] <= i < b.start[r + 1]
  {
    if i < b.start[r + 1] - b.rejected[r] then
      at(CtxPos(i)) == b.positions(i) && forall g: nat :: g < |b.groups| ==> SlotIs(b, g, r, b.positions(i), at(CtxSlot(g, i)))
    else
      at(CtxPos(i)) == 0 && forall g: nat :: g < |b.groups| ==> at(CtxSlot(g, i)) == b.pad
  }

  /** Sample o of request r: from the anchor on, or from the query after it; the position sampled and the request's state. */
  ghost predicate SampleIs(b: Batch, at: Cell -> int, r: nat, o: nat)
    requires b.Valid() && r < b.reqs && o < b.ns
  {
    var i := r * b.ns + o;
    && at(SampleIdx(i)) == r * b.nq + o + (if b.anchor then 0 else 1)
    && at(SamplePos(i)) == b.positions(b.start[r + 1] - b.rejected[r] - 1) + o + 2
    && at(SampleMap(i)) == b.state[r]
  }

  /** The scalars of request r. */
  ghost predicate ScalarsAre(b: Batch, at: Cell -> int, r: nat)
    requires b.Valid() && r < b.reqs
  {
    var end := b.positions(b.start[r + 1] - b.rejected[r] - 1) + 1 + b.nq;
    && at(QueryStart(r)) == r * b.nq
    && at(SeqLens(r)) == (if end < b.maxLen then end else b.maxLen)
    && at(Temperature(b.state[r])) == b.temperature(b.state[r])
    && at(Seeds(b.state[r])) == b.seeds(b.state[r])
  }

  /** Element i behind the last request, in every padded buffer. */
  ghost predicate PaddingIs(b: Batch, at: Cell -> int, i: nat) {
    && (b.reqs <= i <= b.maxReqs ==> at(QueryStart(i)) == b.reqs * b.nq)
    && (b.reqs <= i < b.maxReqs ==> at(SeqLens(i)) == 0)
    && (b.reqs * b.ns <= i < b.maxReqs * b.ns ==> at(SampleIdx(i)) == 0 && at(SamplePos(i)) == 0 && at(SampleMap(i)) == -1)
    && (b.reqs * b.nq <= i < b.maxTokens ==>
         at(InputIds(i)) == 0 && at(QueryPos(i)) == 0 && at(IsPadding(i)) == 1 && forall g: nat :: g < |b.groups| ==> at(QuerySlot(g, i)) == b.pad)
  }

  ghost predicate Prepared(b: Batch, at: Cell -> int)
    requires b.Valid()
  {
    && (forall r: nat, off: nat :: r < b.reqs && off < b.nq ==> QueryIs(b, at, r, off))
    && (forall r: nat, i: nat :: r < b.reqs && b.start[r] <= i < b.start[r + 1] ==> ContextIs(b, at, r, i))
    && (forall r: nat, o: nat :: r < b.reqs && o < b.ns ==> SampleIs(b, at, r, o))
    && (forall r: nat :: r < b.reqs ==> ScalarsAre(b, at, r))
    && forall i: nat :: PaddingIs(b, at, i)
  }

  lemma SlotOfIs(b: Batch, g: nat, r: nat, pos: nat)
    requires b.Valid() && g < |b.groups|
    ensures SlotIs(b, g, r, pos, b.SlotOf(g, r, pos, true)) && b.SlotOf(g, r, pos, false) == b.pad
  {
  }

  /** What a set of stores leaves where it stores. */
  lemma EffectAt(b: Batch, gs: set<nat>, was: Cell -> int, now: Cell -> int, x: Cell, v: int)
    requires b.Valid() && GroupsOf(b, gs) && Effect(LaunchOf(b, gs), was, now) && LaunchStores(b, gs, x, v)
    ensures now(x) == v
  {
    assert LaunchOf(b, gs)(x, v);
  }

  lemma QueryHolds(b: Batch, gs: set<nat>, was: Cell -> int, now: Cell -> int, x: Cell, r: nat, off: nat)
    requires b.Valid() && GroupsOf(b, gs) && Effect(LaunchOf(b, gs), was, now) && IsQuery(x) && Mine(x, gs) && r < b.reqs && At(x, r, b.nq, off)
    ensures now(x) == QueryValue(b, x, r, off)
  {
    QueryStored(b, gs, x, r, off);
    EffectAt(b, gs, was, now, x, QueryValue(b, x, r, off));
  }

  lemma QuerySlotsAre(b: Batch, gs: set<nat>, was: Cell -> int, now: Cell -> int, r: nat, off: nat, i: nat, g: nat)
    requires b.Valid() && GroupsOf(b, gs) && Effect(LaunchOf(b, gs), was, now) && r < b.reqs && off < b.nq && i == r * b.nq + off
    requires g < |b.groups| && g in gs
    ensures QuerySlotIs(b, now, r, off, g)
  {
    QueryHolds(b, gs, was, now, QuerySlot(g, i), r, off);
    QuerySlotValue(b, r, off, g, i, now(QuerySlot(g, i)));
  }

  lemma QuerySlotValue(b: Batch, r: nat, off: nat, g: nat, i: nat, v: int)
    requires b.Valid() && r < b.reqs && off < b.nq && g < |b.groups| && v == QueryValue(b, QuerySlot(g, i), r, off)
    ensures SlotIs(b, g, r, b.positions(b.start[r + 1] - b.rejected[r] - 1) + 1 + off, v)
  {
    SlotOfIs(b, g, r, b.LastValid(r) + 1 + off);
  }

  lemma QueryIdsAre(b: Batch, gs: set<nat>, was: Cell -> int, now: Cell -> int, r: nat, off: nat, i: nat)
    requires b.Valid() && GroupsOf(b, gs) && Effect(LaunchOf(b, gs), was, now) && r < b.reqs && off < b.nq && i == r * b.nq + off
    ensures TokenIs(b, now, r, off)
  {
    QueryHolds(b, gs, was, now, InputIds(i), r, off);
    QueryHolds(b, gs, was, now, QueryPos(i), r, off);
    QueryHolds(b, gs, was, now, IsPadding(i), r, off);
  }

  lemma QueriesAre(b: Batch, gs: set<nat>, was: Cell -> int, now: Cell -> int, r: nat, off: nat)
    requires b.Valid() && GroupsOf(b, gs) && Effect(LaunchOf(b, gs), was, now) && r < b.reqs && off < b.nq && forall g: nat :: g < |b.groups| ==> g in gs
    ensures QueryIs(b, now, r, off)
  {
    var i := r * b.nq + off;
    QueryIdsAre(b, gs, was, now, r, off, i);
    forall g: nat | g < |b.groups|
      ensures QuerySlotIs(b, now, r, off, g)
    {
      QuerySlotsAre(b, gs, was, now, r, off, i, g);
    }
  }

  lemma ContextsAre(b: Batch, gs: set<nat>, was: Cell -> int, now: Cell -> int, r: nat, i: nat)
    requires b.Valid() && GroupsOf(b, gs) && Effect(LaunchOf(b, gs), was, now) && r < b.reqs && b.start[r] <= i < b.start[r + 1]
    requires forall g: nat :: g < |b.groups| ==> g in gs
    ensures ContextIs(b, now, r, i)
  {
    var j := i - b.start[r];
    CtxStored(b, gs, CtxPos(i), r, j);
    EffectAt(b, gs, was, now, CtxPos(i), CtxValue(b, CtxPos(i), r, j));
    forall g: nat | g < |b.groups|
      ensures now(CtxSlot(g, i)) == CtxValue(b, CtxSlot(g, i), r, j) && SlotIs(b, g, r, b.positions(i), b.SlotOf(g, r, b.positions(i), true))
      ensures b.SlotOf(g, r, 0, false) == b.pad
    {
      CtxStored(b, gs, CtxSlot(g, i), r, j);
      EffectAt(b, gs, was, now, CtxSlot(g, i), CtxValue(b, CtxSlot(g, i), r, j));
      SlotOfIs(b, g, r, b.positions(i));
      SlotOfIs(b, g, r, 0);
    }
  }

  lemma SamplesAre(b: Batch, gs: set<nat>, was: Cell -> int, now: Cell -> int, r: nat, o: nat)
    requires b.Valid() && GroupsOf(b, gs) && Effect(LaunchOf(b, gs), was, now) && r < b.reqs && o < b.ns
    ensures SampleIs(b, now, r, o)
  {
    var i := r * b.ns + o;
    forall x: Cell | IsSample(x) && x.i == i
      ensures now(x) == SampleValue(b, x, r, o)
    {
      SampleStored(b, gs, x, r, o);
      EffectAt(b, gs, was, now, x, SampleValue(b, x, r, o));
    }
    assert now(SampleIdx(i)) == SampleValue(b, SampleIdx(i), r, o) && now(SamplePos(i)) == SampleValue(b, SamplePos(i), r, o);
    assert now(SampleMap(i)) == SampleValue(b, SampleMap(i), r, o);
  }

  lemma ScalarHolds(b: Batch, gs: set<nat>, was: Cell -> int, now: Cell -> int, r: nat, x: Cell, v: int)
    requires b.Valid() && GroupsOf(b, gs) && Effect(LaunchOf(b, gs), was, now) && r < b.reqs && ScalarStores(b, gs, r, 0, x, v)
    ensures now(x) == v
  {
    SomeBlocks(b);
    OneStore(b, gs, r, 0, x, v);
    EffectAt(b, gs, was, now, x, v);
  }

  lemma HeadsAre(b: Batch, gs: set<nat>, was: Cell -> int, now: Cell -> int, r: nat)
    requires b.Valid() && GroupsOf(b, gs) && Effect(LaunchOf(b, gs), was, now) && r < b.reqs
    ensures ScalarsAre(b, now, r)
  {
    var s := b.state[r];
    ScalarHolds(b, gs, was, now, r, QueryStart(r), r * b.nq);
    ScalarHolds(b, gs, was, now, r, SeqLens(r), Lesser(b.LastValid(r) + 1 + b.nq, b.maxLen));
    ScalarHolds(b, gs, was, now, r, Temperature(s), b.temperature(s));
    ScalarHolds(b, gs, was, now, r, Seeds(s), b.seeds(s));
  }

  lemma PaddingsAre(b: Batch, gs: set<nat>, was: Cell -> int, now: Cell -> int, i: nat)
    requires b.Valid() && GroupsOf(b, gs) && Effect(LaunchOf(b, gs), was, now) && forall g: nat :: g < |b.groups| ==> g in gs
    ensures PaddingIs(b, now, i)
  {
    forall x: Cell, v | x.i == i && PadStores(b, gs, x, v)
      ensures now(x) == v
    {
      ScalarHolds(b, gs, was, now, b.reqs - 1, x, v);
    }
    assert b.reqs <= i <= b.maxReqs ==> PadStores(b, gs, QueryStart(i), b.reqs * b.nq);
    assert b.reqs <= i < b.maxReqs ==> PadStores(b, gs, SeqLens(i), 0);
    if b.reqs * b.ns <= i < b.maxReqs * b.ns {
      assert PadStores(b, gs, SampleIdx(i), 0) && PadStores(b, gs, SamplePos(i), 0) && PadStores(b, gs, SampleMap(i), -1);
    }
    if b.reqs * b.nq <= i < b.maxTokens {
      assert PadStores(b, gs, InputIds(i), 0) && PadStores(b, gs, QueryPos(i), 0) && PadStores(b, gs, IsPadding(i), 1);
      forall g: nat | g < |b.groups|
        ensures now(QuerySlot(g, i)) == b.pad
      {
        assert PadStores(b, gs, QuerySlot(g, i), b.pad);
      }
    }
  }

  /** A launch of all groups prepares every buffer. */
  lemma LaunchPrepares(b: Batch, gs: set<nat>, was: Cell -> int, now: Cell -> int)
    requires b.Valid() && gs == Groups(|b.groups|) && Effect(LaunchOf(b, gs), was, now)
    ensures Prepared(b, now) && forall x :: !Touched(b, gs, x) ==> now(x) == was(x)
  {
    forall r: nat, off: nat | r < b.reqs && off < b.nq
      ensures QueryIs(b, now, r, off)
    {
      QueriesAre(b, gs, was, now, r, off);
    }
    forall r: nat, i: nat | r < b.reqs && b.start[r] <= i < b.start[r + 1]
      ensures ContextIs(b, now, r, i)
    {
      ContextsAre(b, gs, was, now, r, i);
    }
    forall r: nat, o: nat | r < b.reqs && o < b.ns
      ensures SampleIs(b, now, r, o)
    {
      SamplesAre(b, gs, was, now, r, o);
    }
    forall r: nat | r < b.reqs
      ensures ScalarsAre(b, now, r)
    {
      HeadsAre(b, gs, was, now, r);
    }
    forall i: nat
      ensures PaddingIs(b, now, i)
    {
      PaddingsAre(b, gs, was, now, i);
    }
    forall x | !Touched(b, gs, x)
      ensures now(x) == was(x)
    {
      StoredOrStays(b, gs, was, now, x);
      StoredIsTouched(b, gs, x);
    }
  }

  lemma StoredOrStays(b: Batch, gs: set<nat>, was: Cell -> int, now: Cell -> int, x: Cell)
    requires b.Valid() && GroupsOf(b, gs) && Effect(LaunchOf(b, gs), was, now)
    ensures (exists v :: LaunchStores(b, gs, x, v)) || now(x) == was(x)
  {
    var w := LaunchOf(b, gs);
    assert forall v :: w(x, v) <==> LaunchStores(b, gs, x, v);
  }

  /** The query positions go on where the accepted context ends, which is the last token not rejected. */
  lemma QueriesContinue(b: Batch, at: Cell -> int, r: nat, off: nat)
    requires b.Valid() && Prepared(b, at) && r < b.reqs && off < b.nq && b.rejected[r] < b.start[r + 1] - b.start[r]
    ensures var i := b.start[r + 1] - b.rejected[r] - 1;
      i >= 0 && at(QueryPos(r * b.nq + off)) == if at(CtxPos(i)) + 1 + off < b.maxLen then at(CtxPos(i)) + 1 + off else b.maxLen - 1
  {
    var i := b.start[r + 1] - b.rejected[r] - 1;
    assert b.start[0] <= b.start[r];
    assert QueryIs(b, at, r, off) && ContextIs(b, at, r, i);
  }

  /** The fused launch in any order leaves every buffer as the loop of launches in any orders does. */
  method Fused(b: Batch, order: seq<(nat, nat)>, orders: seq<seq<(nat, nat)>>, fused: Memory, looped: Memory)
    requires b.Valid() && 0 < |b.groups| == |orders| && Schedule(b, order)
    requires forall g :: 0 <= g < |orders| ==> Schedule(b, orders[g])
    requires fused != looped && fused.at == looped.at
    modifies fused, looped
    ensures forall x :: fused.at(x) == looped.at(x)
    ensures Effect(LaunchOf(b, Groups(|b.groups|)), old(fused.at), fused.at)
    ensures Prepared(b, fused.at) && forall x :: !Touched(b, Groups(|b.groups|), x) ==> fused.at(x) == old(fused.at)(x)
  {
    ghost var was := fused.at;
    Launch(b, Groups(|b.groups|), order, fused);
    LaunchPerGroup(b, orders, looped);
    ghost var w := LaunchOf(b, Groups(|b.groups|));
    forall x
      ensures fused.at(x) == looped.at(x)
    {
      SameEffect(w, w, was, fused.at, looped.at, x);
    }
    LaunchPrepares(b, Groups(|b.groups|), was, fused.at);
  }
}
