/** The online softmax of the sparse-MLA prefill kernel, one head of one token: 64-candidate chunks of the main cache,
    then of the compressed cache. Arithmetic is exact; exp2 and log2 are parameters known only by their laws. */
module SparseMlaSoftmax {
  import opened Sums

  // ------------------------------------------------------------------ a token's candidates

  /** A token's launch parameters and its two index rows. A length pointer or the compressed cache may be absent. */
  datatype Token = Token(topk: nat, hasLength: bool, length: int, extraTopk: nat, hasExtraLength: bool, extraLength: int,
                         hasExtra: bool, indices: seq<int>, extraIndices: seq<int>)
  {
    predicate Valid() { |indices| >= topk && (hasExtra ==> |extraIndices| >= extraTopk) }

    /** min, then max with zero, of the length loaded; the whole row when there is none. */
    function Len(): nat {
      if hasLength then Clamp(length, topk) else topk
    }

    function ExtraLen(): nat {
      if !hasExtra then 0 else if hasExtraLength then Clamp(extraLength, extraTopk) else extraTopk
    }

    function MainChunks(): nat { (Len() + 63) / 64 }
    function Chunks(): nat { (ExtraLen() + 63) / 64 + MainChunks() }

    /** The index of a candidate of chunk c: -1 past the length of its cache. */
    function Index(c: nat, row: nat): int
      requires Valid() && c < Chunks() && row < 64
    {
      if c < MainChunks() then
        var pos := c * 64 + row;
        if pos < Len() then indices[pos] else -1
      else
        var pos := (c - MainChunks()) * 64 + row;
        if pos < ExtraLen() then extraIndices[pos] else -1
    }
  }

  function Clamp(n: int, top: nat): nat { var x := if n < top then n else top; if x > 0 then x else 0 }

  /** A candidate: absent, or a record of one of the caches. */
  datatype Cand = Masked | Record(extra: bool, index: nat)

  /** Candidate i of the concatenated chunks. */
  function CandAt(t: Token, i: int): Cand
    requires t.Valid()
  {
    if i < 0 || i >= 64 * t.Chunks() then Masked
    else
      var x := t.Index(i / 64, i % 64);
      if x >= 0 then Record(i / 64 >= t.MainChunks(), x) else Masked
  }

  /** A head: its scaled scores against the records (q . k, times sm_scale log2 e) and the records' columns. */
  datatype Head = Head(score: (bool, nat) -> real, value: (bool, nat, int) -> real)

  const NEG: real := -1000000000000000000000000000000.0
  const DV := 512

  /** exp2 turns sums into products and is positive. The law opens only for the arguments Args mentions. */
  ghost predicate Exp(e: real -> real) {
    && (forall a, b {:trigger Args(a, b)} :: e(a + b) == e(a) * e(b))
    && forall a {:trigger Args(a, a)} :: e(a) > 0.0
  }

  /** Products of reals open only for an index that Open mentions. */
  ghost predicate Open(i: int) { true }

  ghost predicate Args(a: real, b: real) { true }

  ghost predicate Log(e: real -> real, lg: real -> real) { forall y :: y > 0.0 ==> e(lg(y)) == y }

  /** Weight of a candidate at a running maximum m. */
  function Weight(e: real -> real, h: Head, k: Cand, m: real): real {
    if k.Masked? then 0.0 else e(h.score(k.extra, k.index) - m)
  }

  function Value(h: Head, k: Cand, d: int): real { if k.Masked? then 0.0 else h.value(k.extra, k.index, d) }

  /** What a sum over candidates adds up: the weights, the weights times the values of a column, or the candidates. */
  datatype Kind = Mass | Moment(d: int) | Count

  function Term(e: real -> real, h: Head, kind: Kind, k: Cand, m: real): real {
    match kind
    case Mass => Weight(e, h, k, m)
    case Moment(d) => Weight(e, h, k, m) * Value(h, k, d)
    case Count => if k.Masked? then 0.0 else 1.0
  }

  function Terms(e: real -> real, t: Token, h: Head, kind: Kind, m: real): int -> real
    requires t.Valid()
  {
    i => Term(e, h, kind, CandAt(t, i), m)
  }

  // ------------------------------------------------------------------ one chunk

  function Max(x: real, y: real): real { if x >= y then x else y }

  ghost predicate IsMax(m: real, lo: real, xs: seq<real>) {
    m >= lo && (forall i :: 0 <= i < |xs| ==> xs[i] <= m) && (m == lo || exists i :: 0 <= i < |xs| && xs[i] == m)
  }

  /** A warp's eight scores: lane pairs, then SHFL.BFLY 1 and 2. */
  method WarpMax(q: seq<real>) returns (m: real)
    requires |q| == 8
    ensures (forall i :: 0 <= i < 8 ==> q[i] <= m) && exists i :: 0 <= i < 8 && q[i] == m
  {
    var a, b, c, d := Max(q[0], q[1]), Max(q[2], q[3]), Max(q[4], q[5]), Max(q[6], q[7]);
    m := Max(Max(a, b), Max(c, d));
  }

  method WarpSum(q: seq<real>, ghost f: int -> real, ghost base: int) returns (s: real)
    requires |q| == 8 && forall i :: 0 <= i < 8 ==> f(base + i) == q[i]
    ensures s == Sum(f, base, base + 8)
  {
    var a, b, c, d := q[0] + q[1], q[2] + q[3], q[4] + q[5], q[6] + q[7];
    s := (a + b) + (c + d);
    Sum8(f, base);
  }

  lemma Sum8(f: int -> real, base: int)
    ensures Sum(f, base, base + 8)
         == f(base) + f(base + 1) + f(base + 2) + f(base + 3) + f(base + 4) + f(base + 5) + f(base + 6) + f(base + 7)
  {
    assert Sum(f, base, base + 0) == 0.0;
    assert Sum(f, base, base + 2) == f(base) + f(base + 1);
    assert Sum(f, base, base + 4) == Sum(f, base, base + 2) + f(base + 2) + f(base + 3);
    assert Sum(f, base, base + 6) == Sum(f, base, base + 4) + f(base + 4) + f(base + 5);
  }

  /** The scores a chunk enters the softmax with: -1e30 where the index is negative. */
  method MaskScores(t: Token, h: Head, c: nat) returns (q: seq<real>)
    requires t.Valid() && c < t.Chunks()
    ensures |q| == 64
    ensures forall r :: 0 <= r < 64 ==> var k := CandAt(t, c * 64 + r); q[r] == if k.Masked? then NEG else h.score(k.extra, k.index)
  {
    q := [];
    for r := 0 to 64
      invariant |q| == r
      invariant forall i :: 0 <= i < r ==> var k := CandAt(t, c * 64 + i); q[i] == if k.Masked? then NEG else h.score(k.extra, k.index)
    {
      var x := t.Index(c, r);
      assert (c * 64 + r) / 64 == c && (c * 64 + r) % 64 == r;
      q := q + [if x >= 0 then h.score(c >= t.MainChunks(), x) else NEG];
    }
  }

  /** Row maximum over warps 0..7 and the old maximum. */
  method NewMax(m: real, q: seq<real>) returns (m': real)
    requires |q| == 64
    ensures IsMax(m', m, q)
  {
    m' := m;
    for w := 0 to 8
      invariant IsMax(m', m, q[..8 * w])
    {
      var r := WarpMax(q[8 * w..8 * w + 8]);
      m' := Max(m', r);
      assert forall i :: 8 * w <= i < 8 * w + 8 ==> q[i] == q[8 * w..8 * w + 8][i - 8 * w];
    }
    assert q[..64] == q;
  }

  // ------------------------------------------------------------------ the running state

  /** m is the largest live score so far, or -1e30 if that is larger (or there is none). */
  ghost predicate IsPeak(t: Token, h: Head, n: int, m: real)
    requires t.Valid()
  {
    && m >= NEG
    && (forall i :: 0 <= i < n ==> var k := CandAt(t, i); k.Masked? || h.score(k.extra, k.index) <= m)
    && (m == NEG || exists i :: 0 <= i < n && var k := CandAt(t, i); k.Record? && h.score(k.extra, k.index) == m)
  }

  /** After n candidates: the running maximum, the sum of weights and the weighted sum of every column. */
  ghost predicate Represents(e: real -> real, t: Token, h: Head, n: int, m: real, s: real, acc: seq<real>)
    requires t.Valid()
  {
    && |acc| == DV && IsPeak(t, h, n, m)
    && s == Sum(Terms(e, t, h, Mass, m), 0, n)
    && Columns(e, t, h, m, n, acc, 0, DV)
  }

  lemma PeakNext(t: Token, h: Head, c: nat, m: real, m': real, q: seq<real>)
    requires t.Valid() && c < t.Chunks() && IsPeak(t, h, c * 64, m) && |q| == 64 && IsMax(m', m, q)
    requires forall r :: 0 <= r < 64 ==> var k := CandAt(t, c * 64 + r); q[r] == if k.Masked? then NEG else h.score(k.extra, k.index)
    ensures IsPeak(t, h, c * 64 + 64, m')
  {
    forall i | 0 <= i < c * 64 + 64
      ensures var k := CandAt(t, i); k.Masked? || h.score(k.extra, k.index) <= m'
    {
      if i >= c * 64 {
        assert q[i - c * 64] <= m';
        assert CandAt(t, c * 64 + (i - c * 64)) == CandAt(t, i);
      }
    }
    if m' != m {
      var r :| 0 <= r < 64 && q[r] == m';
      var k := CandAt(t, c * 64 + r);
      assert k.Masked? ==> m' == NEG;
    }
  }

  lemma ExpShift(e: real -> real, x: real, m: real, m': real)
    requires Exp(e)
    ensures e(x - m') == e(x - m) * e(m - m')
  {
    assert Args(x - m, m - m');
    assert x - m' == (x - m) + (m - m');
  }

  lemma MulSwap(x: real, y: real, z: real)
    ensures (x * y) * z == (x * z) * y
  {
  }

  /** One candidate's weight, and its weighted value, when the maximum moves from m to m'. */
  lemma RescaledAt(e: real -> real, h: Head, kind: Kind, k: Cand, m: real, m': real, alpha: real)
    requires Exp(e) && alpha == e(m - m') && !kind.Count?
    ensures Term(e, h, kind, k, m') == Term(e, h, kind, k, m) * alpha
  {
    if k.Record? {
      ExpShift(e, h.score(k.extra, k.index), m, m');
    }
    if kind.Moment? {
      MulSwap(Weight(e, h, k, m), Value(h, k, kind.d), alpha);
    }
  }

  lemma RescaledTerm(e: real -> real, t: Token, h: Head, kind: Kind, m: real, m': real, alpha: real, i: int)
    requires t.Valid() && Exp(e) && alpha == e(m - m') && !kind.Count?
    ensures Terms(e, t, h, kind, m')(i) == Terms(e, t, h, kind, m)(i) * alpha
  {
    RescaledAt(e, h, kind, CandAt(t, i), m, m', alpha);
  }

  ghost predicate Scales(f: int -> real, f': int -> real, alpha: real) {
    forall i {:trigger Open(i)} :: f'(i) == f(i) * alpha
  }

  lemma ScaledSum(f: int -> real, f': int -> real, alpha: real, n: nat)
    requires Scales(f, f', alpha)
    ensures Sum(f', 0, n) == Sum(f, 0, n) * alpha
  {
    forall i | 0 <= i < n
      ensures f'(0 + i) == f(i) * alpha
    {
      assert Open(i);
    }
    SumShiftScale(f, f', alpha, 0, n);
  }

  /** Moving the maximum scales every weight, and every weighted value, by alpha. */
  lemma Rescaled(e: real -> real, t: Token, h: Head, kind: Kind, m: real, m': real, alpha: real)
    requires t.Valid() && Exp(e) && alpha == e(m - m') && !kind.Count?
    ensures Scales(Terms(e, t, h, kind, m), Terms(e, t, h, kind, m'), alpha)
  {
    forall i
      ensures Terms(e, t, h, kind, m')(i) == Terms(e, t, h, kind, m)(i) * alpha
    {
      RescaledTerm(e, t, h, kind, m, m', alpha, i);
    }
  }

  /** p = valid ? exp2(qk - m) : 0. */
  method Probabilities(e: real -> real, t: Token, h: Head, c: nat, q: seq<real>, m: real) returns (p: seq<real>)
    requires t.Valid() && c < t.Chunks() && |q| == 64
    requires forall r :: 0 <= r < 64 ==> var k := CandAt(t, c * 64 + r); q[r] == if k.Masked? then NEG else h.score(k.extra, k.index)
    ensures Probs(p, Terms(e, t, h, Mass, m), c)
  {
    p := [];
    for r := 0 to 64
      invariant |p| == r && forall i :: 0 <= i < r ==> p[i] == Terms(e, t, h, Mass, m)(c * 64 + i)
    {
      assert (c * 64 + r) / 64 == c && (c * 64 + r) % 64 == r;
      p := p + [if t.Index(c, r) >= 0 then e(q[r] - m) else 0.0];
    }
  }

  /** sum = alpha sum + r0 + ... + r7. */
  method NewSum(s: real, alpha: real, p: seq<real>, ghost f: int -> real, ghost base: int) returns (s': real)
    requires |p| == 64 && forall r :: 0 <= r < 64 ==> p[r] == f(base + r)
    ensures s' == alpha * s + Sum(f, base, base + 64)
  {
    s' := alpha * s;
    for w := 0 to 8
      invariant s' == alpha * s + Sum(f, base, base + 8 * w)
    {
      var r := WarpSum(p[8 * w..8 * w + 8], f, base + 8 * w);
      SumSplit(f, base, base + 8 * w, base + 8 * w + 8);
      s' := s' + r;
    }
  }

  /** A chunk's probabilities are the weights of its candidates under f. */
  ghost predicate Probs(p: seq<real>, f: int -> real, c: nat) { |p| == 64 && forall r :: 0 <= r < 64 ==> p[r] == f(c * 64 + r) }

  /** g lists the candidates' weights times their values in column d. */
  ghost predicate Products(g: int -> real, f: int -> real, t: Token, h: Head, d: int)
    requires t.Valid()
  {
    forall i {:trigger Open(i)} :: g(i) == f(i) * Value(h, CandAt(t, i), d)
  }

  /** One column through the four k-steps of the P V product; each HMMA adds sixteen candidates. */
  method PvColumn(t: Token, h: Head, c: nat, p: seq<real>, d: int, acc: real, ghost f: int -> real, ghost g: int -> real) returns (acc': real)
    requires t.Valid() && c < t.Chunks() && Probs(p, f, c) && Products(g, f, t, h, d)
    ensures acc' == acc + Sum(g, c * 64, c * 64 + 64)
  {
    acc' := acc;
    for ks := 0 to 4
      invariant acc' == acc + Sum(g, c * 64, c * 64 + 16 * ks)
    {
      var x := Hmma16(t, h, c, p, d, 16 * ks, f, g);
      SumSplit(g, c * 64, c * 64 + 16 * ks, c * 64 + 16 * ks + 16);
      acc' := acc' + x;
    }
  }

  /** The tensor-core step, by its contract: sixteen products added up. */
  method Hmma16(t: Token, h: Head, c: nat, p: seq<real>, d: int, from: nat, ghost f: int -> real, ghost g: int -> real) returns (x: real)
    requires t.Valid() && c < t.Chunks() && Probs(p, f, c) && Products(g, f, t, h, d) && from + 16 <= 64
    ensures x == Sum(g, c * 64 + from, c * 64 + from + 16)
  {
    x := 0.0;
    for r := from to from + 16
      invariant x == Sum(g, c * 64 + from, c * 64 + r)
    {
      x := x + p[r] * Value(h, CandAt(t, c * 64 + r), d);
      assert Open(c * 64 + r);
      assert g(c * 64 + r) == p[r] * Value(h, CandAt(t, c * 64 + r), d);
    }
  }

  /** acc *= alpha, then the chunk's P V product, for one column. */
  method ScaleAndAdd(t: Token, h: Head, c: nat, alpha: real, p: seq<real>, d: int, acc: real,
                     ghost f: int -> real, ghost g0: int -> real, ghost g: int -> real) returns (acc': real)
    requires t.Valid() && c < t.Chunks() && Probs(p, f, c) && Products(g, f, t, h, d) && Scales(g0, g, alpha)
    requires acc == Sum(g0, 0, c * 64)
    ensures acc' == Sum(g, 0, c * 64 + 64)
  {
    ScaledSum(g0, g, alpha, c * 64);
    acc' := PvColumn(t, h, c, p, d, acc * alpha, f, g);
    SumSplit(g, 0, c * 64, c * 64 + 64);
  }

  method NewColumn(e: real -> real, t: Token, h: Head, c: nat, ghost m: real, ghost m': real, alpha: real, p: seq<real>, d: int, acc: real)
    returns (acc': real)
    requires t.Valid() && Exp(e) && c < t.Chunks() && alpha == e(m - m') && Probs(p, Terms(e, t, h, Mass, m'), c)
    requires acc == Sum(Terms(e, t, h, Moment(d), m), 0, c * 64)
    ensures acc' == Sum(Terms(e, t, h, Moment(d), m'), 0, c * 64 + 64)
  {
    Rescaled(e, t, h, Moment(d), m, m', alpha);
    ProductsOf(e, t, h, m', d);
    acc' := ScaleAndAdd(t, h, c, alpha, p, d, acc, Terms(e, t, h, Mass, m'), Terms(e, t, h, Moment(d), m), Terms(e, t, h, Moment(d), m'));
  }

  lemma ProductsOf(e: real -> real, t: Token, h: Head, m: real, d: int)
    requires t.Valid()
    ensures Products(Terms(e, t, h, Moment(d), m), Terms(e, t, h, Mass, m), t, h, d)
  {
  }

  ghost predicate Columns(e: real -> real, t: Token, h: Head, m: real, n: int, acc: seq<real>, lo: int, hi: int)
    requires t.Valid() && 0 <= lo <= hi <= |acc|
  {
    forall d {:trigger acc[d]} :: lo <= d < hi ==> acc[d] == Sum(Terms(e, t, h, Moment(d), m), 0, n)
  }

  method NewAcc(e: real -> real, t: Token, h: Head, c: nat, ghost m: real, ghost m': real, alpha: real, p: seq<real>, acc: array<real>)
    requires t.Valid() && Exp(e) && c < t.Chunks() && |p| == 64 && acc.Length == DV && alpha == e(m - m')
    requires Probs(p, Terms(e, t, h, Mass, m'), c)
    requires Columns(e, t, h, m, c * 64, acc[..], 0, DV)
    modifies acc
    ensures Columns(e, t, h, m', c * 64 + 64, acc[..], 0, DV)
  {
    for d := 0 to DV
      invariant Columns(e, t, h, m', c * 64 + 64, acc[..], 0, d)
      invariant Columns(e, t, h, m, c * 64, acc[..], d, DV)
    {
      assert acc[..][d] == acc[d];
      var y := NewColumn(e, t, h, c, m, m', alpha, p, d, acc[d]);
      ghost var before := acc[..];
      acc[d] := y;
      assert acc[..] == before[d := y];
    }
  }

  method ScaleAndSum(c: nat, alpha: real, p: seq<real>, s: real, ghost f0: int -> real, ghost f: int -> real) returns (s': real)
    requires Probs(p, f, c) && Scales(f0, f, alpha) && s == Sum(f0, 0, c * 64)
    ensures s' == Sum(f, 0, c * 64 + 64)
  {
    ScaledSum(f0, f, alpha, c * 64);
    s' := NewSum(s, alpha, p, f, c * 64);
    SumSplit(f, 0, c * 64, c * 64 + 64);
  }

  /** The sum of weights over one more chunk. */
  method NewTotal(e: real -> real, t: Token, h: Head, c: nat, ghost m: real, ghost m': real, alpha: real, p: seq<real>, s: real) returns (s': real)
    requires t.Valid() && Exp(e) && alpha == e(m - m') && Probs(p, Terms(e, t, h, Mass, m'), c)
    requires s == Sum(Terms(e, t, h, Mass, m), 0, c * 64)
    ensures s' == Sum(Terms(e, t, h, Mass, m'), 0, c * 64 + 64)
  {
    Rescaled(e, t, h, Mass, m, m', alpha);
    s' := ScaleAndSum(c, alpha, p, s, Terms(e, t, h, Mass, m), Terms(e, t, h, Mass, m'));
  }

  /** One turn of the chunk loop. */
  method Chunk(e: real -> real, t: Token, h: Head, c: nat, m: real, s: real, acc: array<real>) returns (m': real, s': real)
    requires t.Valid() && Exp(e) && c < t.Chunks() && acc.Length == DV && Represents(e, t, h, c * 64, m, s, acc[..])
    modifies acc
    ensures Represents(e, t, h, c * 64 + 64, m', s', acc[..])
  {
    var q := MaskScores(t, h, c);
    m' := NewMax(m, q);
    PeakNext(t, h, c, m, m', q);
    var p := Probabilities(e, t, h, c, q, m');
    var alpha := e(m - m');
    s' := NewTotal(e, t, h, c, m, m', alpha, p, s);
    NewAcc(e, t, h, c, m, m', alpha, p, acc);
  }

  // ------------------------------------------------------------------ the one-shot softmax

  /** A position of the main cache is attended to: in the row of topk indices, before the length loaded if there is one, and
      with an index that is not negative. Said of the launch parameters, apart from what the chunk loop computes of them. */
  predicate MainLive(t: Token, pos: int)
    requires t.Valid()
  {
    0 <= pos < t.topk && (t.hasLength ==> pos < t.length) && t.indices[pos] >= 0
  }

  predicate ExtraLive(t: Token, pos: int)
    requires t.Valid()
  {
    t.hasExtra && 0 <= pos < t.extraTopk && (t.hasExtraLength ==> pos < t.extraLength) && t.extraIndices[pos] >= 0
  }

  /** The candidate at a position of the main cache, and of the compressed cache. */
  function MainCand(t: Token, pos: int): Cand
    requires t.Valid()
  {
    if MainLive(t, pos) then Record(false, t.indices[pos]) else Masked
  }

  function ExtraCand(t: Token, pos: int): Cand
    requires t.Valid()
  {
    if ExtraLive(t, pos) then Record(true, t.extraIndices[pos]) else Masked
  }

  /** What a record adds to a one-shot sum: exp2 of its score, that times its value in a column, or one. */
  function Share(e: real -> real, h: Head, kind: Kind, extra: bool, index: nat): real {
    match kind
    case Mass => e(h.score(extra, index))
    case Moment(d) => e(h.score(extra, index)) * h.value(extra, index, d)
    case Count => 1.0
  }

  function MainTerms(e: real -> real, t: Token, h: Head, kind: Kind): int -> real
    requires t.Valid()
  {
    pos => if MainLive(t, pos) then Share(e, h, kind, false, t.indices[pos]) else 0.0
  }

  function ExtraTerms(e: real -> real, t: Token, h: Head, kind: Kind): int -> real
    requires t.Valid()
  {
    pos => if ExtraLive(t, pos) then Share(e, h, kind, true, t.extraIndices[pos]) else 0.0
  }

  /** The one-shot sums over every position of both caches, those not attended to adding zero: the softmax's denominator, its
      numerator in a column, and the number of positions attended to. */
  ghost function OneShot(e: real -> real, t: Token, h: Head, kind: Kind): real
    requires t.Valid()
  {
    Sum(MainTerms(e, t, h, kind), 0, t.topk) + if t.hasExtra then Sum(ExtraTerms(e, t, h, kind), 0, t.extraTopk) else 0.0
  }

  /** The chunk loop's term of a candidate, at maximum zero, is the share of its record. */
  lemma TermIsShare(e: real -> real, h: Head, kind: Kind, k: Cand)
    ensures Term(e, h, kind, k, 0.0) == if k.Masked? then 0.0 else Share(e, h, kind, k.extra, k.index)
  {
    if k.Record? {
      var x := h.score(k.extra, k.index);
      assert x - 0.0 == x;
    }
  }

  /** No chunk is without a position: the chunks of a cache are the least number of 64 that covers its length. */
  lemma ChunksNeeded(t: Token)
    ensures 64 * t.MainChunks() - 64 < t.Len() <= 64 * t.MainChunks()
    ensures var extra := t.Chunks() - t.MainChunks(); 64 * extra - 64 < t.ExtraLen() <= 64 * extra
  {
  }

  /** The lengths the kernel clamps to are those that the launch parameters allow. */
  lemma LenIs(t: Token, pos: nat)
    ensures pos < t.Len() <==> pos < t.topk && (t.hasLength ==> pos < t.length)
    ensures pos < t.ExtraLen() <==> t.hasExtra && pos < t.extraTopk && (t.hasExtraLength ==> pos < t.extraLength)
  {
  }

  lemma ChunkIsMain(t: Token, i: int)
    requires t.Valid() && 0 <= i < 64 * t.MainChunks()
    ensures CandAt(t, i) == MainCand(t, i)
  {
    var c, row := i / 64, i % 64;
    assert i == c * 64 + row;
    LenIs(t, i);
  }

  lemma ChunkIsExtra(t: Token, i: int)
    requires t.Valid() && 0 <= i < 64 * (t.Chunks() - t.MainChunks())
    ensures CandAt(t, 64 * t.MainChunks() + i) == ExtraCand(t, i)
  {
    var mainc := t.MainChunks();
    var c, row := i / 64, i % 64;
    var j := 64 * mainc + i;
    assert i == c * 64 + row;
    assert j / 64 == mainc + c && j % 64 == row;
    LenIs(t, i);
  }

  lemma TrimSum(g: int -> real, len: nat, n: nat)
    requires len <= n && forall i :: len <= i < n ==> g(i) == 0.0
    ensures Sum(g, 0, n) == Sum(g, 0, len)
  {
    SumSplit(g, 0, len, n);
    SumZero(g, len, n);
  }

  lemma MainSum(e: real -> real, t: Token, h: Head, kind: Kind)
    requires t.Valid()
    ensures Sum(Terms(e, t, h, kind, 0.0), 0, 64 * t.MainChunks()) == Sum(MainTerms(e, t, h, kind), 0, t.topk)
  {
    var f, g, n := Terms(e, t, h, kind, 0.0), MainTerms(e, t, h, kind), 64 * t.MainChunks();
    forall i | 0 <= i < n
      ensures f(i) == g(i)
    {
      ChunkIsMain(t, i);
      TermIsShare(e, h, kind, CandAt(t, i));
    }
    SumExt(f, g, 0, n);
    forall i | t.Len() <= i
      ensures g(i) == 0.0
    {
      LenIs(t, i);
    }
    TrimSum(g, t.Len(), n);
    TrimSum(g, t.Len(), t.topk);
  }

  lemma ExtraShift(e: real -> real, t: Token, h: Head, kind: Kind, f: int -> real, g: int -> real, base: int, n: nat)
    requires t.Valid() && f == Terms(e, t, h, kind, 0.0) && g == ExtraTerms(e, t, h, kind)
    requires base == 64 * t.MainChunks() && n == 64 * (t.Chunks() - t.MainChunks())
    ensures Sum(f, base, base + n) == Sum(g, 0, n)
  {
    forall i | 0 <= i < n
      ensures f(base + i) == g(i)
    {
      ChunkIsExtra(t, i);
      TermIsShare(e, h, kind, CandAt(t, base + i));
    }
    SumShift(g, f, base, n);
  }

  lemma ExtraTrim(e: real -> real, t: Token, h: Head, kind: Kind, g: int -> real, n: nat)
    requires t.Valid() && g == ExtraTerms(e, t, h, kind) && n == 64 * (t.Chunks() - t.MainChunks())
    ensures Sum(g, 0, n) == if t.hasExtra then Sum(g, 0, t.extraTopk) else 0.0
  {
    forall i | t.ExtraLen() <= i
      ensures g(i) == 0.0
    {
      LenIs(t, i);
    }
    TrimSum(g, t.ExtraLen(), n);
    if t.hasExtra {
      TrimSum(g, t.ExtraLen(), t.extraTopk);
    }
  }

  lemma ExtraSumTo(e: real -> real, t: Token, h: Head, kind: Kind, f: int -> real, g: int -> real, base: int, end: int)
    requires t.Valid() && f == Terms(e, t, h, kind, 0.0) && g == ExtraTerms(e, t, h, kind)
    requires base == 64 * t.MainChunks() && end == 64 * t.Chunks()
    ensures Sum(f, base, end) == if t.hasExtra then Sum(g, 0, t.extraTopk) else 0.0
  {
    ExtraShift(e, t, h, kind, f, g, base, end - base);
    ExtraTrim(e, t, h, kind, g, end - base);
  }

  lemma ExtraSum(e: real -> real, t: Token, h: Head, kind: Kind)
    requires t.Valid()
    ensures Sum(Terms(e, t, h, kind, 0.0), 64 * t.MainChunks(), 64 * t.Chunks())
         == if t.hasExtra then Sum(ExtraTerms(e, t, h, kind), 0, t.extraTopk) else 0.0
  {
    ExtraSumTo(e, t, h, kind, Terms(e, t, h, kind, 0.0), ExtraTerms(e, t, h, kind), 64 * t.MainChunks(), 64 * t.Chunks());
  }

  /** The chunk row that scores a position of a cache. */
  function RowOf(t: Token, extra: bool, pos: nat): nat { if extra then 64 * t.MainChunks() + pos else pos }

  function Positions(t: Token, extra: bool): nat { if extra then t.ExtraLen() else t.Len() }

  function CandOf(t: Token, extra: bool, pos: nat): Cand
    requires t.Valid()
  {
    if extra then ExtraCand(t, pos) else MainCand(t, pos)
  }

  /** Every position of either cache has a chunk row that scores its candidate, and no two have the same row. */
  lemma PositionHasRow(t: Token, extra: bool, pos: nat, extra2: bool, pos2: nat)
    requires t.Valid() && pos < Positions(t, extra)
    ensures RowOf(t, extra, pos) < 64 * t.Chunks() && CandAt(t, RowOf(t, extra, pos)) == CandOf(t, extra, pos)
    ensures pos2 < Positions(t, extra2) && RowOf(t, extra2, pos2) == RowOf(t, extra, pos) ==> extra2 == extra && pos2 == pos
  {
    if extra {
      ChunkIsExtra(t, pos);
    } else {
      ChunkIsMain(t, pos);
    }
  }

  /** Every other chunk row is masked. */
  lemma RowHasPosition(t: Token, i: nat) returns (extra: bool, pos: nat)
    requires t.Valid() && i < 64 * t.Chunks() && CandAt(t, i) != Masked
    ensures pos < Positions(t, extra) && RowOf(t, extra, pos) == i && CandAt(t, i) == CandOf(t, extra, pos)
  {
    extra := i >= 64 * t.MainChunks();
    pos := if extra then i - 64 * t.MainChunks() else i;
    if extra {
      ChunkIsExtra(t, pos);
    } else {
      ChunkIsMain(t, pos);
    }
  }

  /** So weights, weighted values and the plain count of valid candidates sum to the same over the chunks as over the positions. */
  lemma ChunksCoverPositions(e: real -> real, t: Token, h: Head, kind: Kind)
    requires t.Valid()
    ensures Sum(Terms(e, t, h, kind, 0.0), 0, 64 * t.Chunks()) == OneShot(e, t, h, kind)
  {
    MainSum(e, t, h, kind);
    ExtraSum(e, t, h, kind);
    SumSplit(Terms(e, t, h, kind, 0.0), 0, 64 * t.MainChunks(), 64 * t.Chunks());
  }

  /** Two sums kept closed, so that a product of one does not open it. */
  ghost predicate IsSum(x: real, f: int -> real, n: int) { forall k {:trigger Open(k)} :: k == 0 ==> x == Sum(f, 0, n) }

  ghost predicate IsOneShot(x: real, e: real -> real, t: Token, h: Head, kind: Kind)
    requires t.Valid()
  {
    forall k {:trigger Open(k)} :: k == 0 ==> x == OneShot(e, t, h, kind)
  }

  lemma ScaledIsSum(f: int -> real, f': int -> real, alpha: real, n: nat, x: real) returns (y: real)
    requires Scales(f, f', alpha) && IsSum(x, f, n)
    ensures IsSum(y, f', n) && y == x * alpha
  {
    y := Sum(f', 0, n);
    ScaledSum(f, f', alpha, n);
    assert Open(0);
  }

  lemma SumsAgree(e: real -> real, t: Token, h: Head, kind: Kind, x: real, y: real)
    requires t.Valid() && IsSum(x, Terms(e, t, h, kind, 0.0), 64 * t.Chunks()) && IsOneShot(y, e, t, h, kind)
    ensures x == y
  {
    assert Open(0);
    ChunksCoverPositions(e, t, h, kind);
  }

  /** The final state against the one-shot sums: they differ by the factor exp2(m). */
  lemma FinalSum(e: real -> real, t: Token, h: Head, kind: Kind, m: real, em: real, x: real, y: real)
    requires t.Valid() && Exp(e) && em == e(m - 0.0) && !kind.Count?
    requires IsSum(x, Terms(e, t, h, kind, m), 64 * t.Chunks()) && IsOneShot(y, e, t, h, kind)
    ensures x * em == y
  {
    Rescaled(e, t, h, kind, m, 0.0, em);
    var z := ScaledIsSum(Terms(e, t, h, kind, m), Terms(e, t, h, kind, 0.0), em, 64 * t.Chunks(), x);
    SumsAgree(e, t, h, kind, z, y);
  }

  // ------------------------------------------------------------------ the epilogue

  datatype Lse = NegInfinity | Finite(x: real)
  datatype Sink = NoSink | SinkAt(logit: real)

  const LOG2E: real := 1.4426950216293334961

  lemma ExpSum(e: real -> real, a: real, b: real)
    requires Exp(e)
    ensures e(a + b) == e(a) * e(b) && e(a) > 0.0 && e(b) > 0.0
  {
    assert Args(a, b) && Args(a, a) && Args(b, b);
  }

  lemma InverseTimes(s: real, x: real, norm: real)
    requires s > 0.0 && norm == 1.0 / s
    ensures norm * (s * x) == x
  {
    assert norm * s == 1.0;
  }

  /** Without a sink: the reciprocal of the sum, and its logarithm moved back to the origin. */
  lemma PlainNorm(e: real -> real, lg: real -> real, m: real, s: real, mass: real)
    requires Exp(e) && Log(e, lg) && s > 0.0 && s * e(m) == mass
    ensures (1.0 / s) * mass == e(m) && e(lg(s) + m) == mass
  {
    InverseTimes(s, e(m), 1.0 / s);
    ExpSum(e, lg(s), m);
  }

  lemma TotalTimes(weight: real, s: real, rest: real, ep: real, em: real, ex: real)
    requires weight * ep == em && rest * ep == ex
    ensures (weight * s + rest) * ep == s * em + ex
  {
    assert (weight * s) * ep == s * (weight * ep);
  }

  lemma TotalPositive(weight: real, s: real, rest: real)
    requires weight > 0.0 && s >= 0.0 && rest > 0.0
    ensures weight * s + rest > 0.0
  {
  }

  lemma WeightedInverse(weight: real, total: real, ep: real)
    requires total > 0.0
    ensures weight * (1.0 / total) * (total * ep) == weight * ep
  {
    InverseTimes(total, ep, 1.0 / total);
    assert weight * (1.0 / total) * (total * ep) == weight * ((1.0 / total) * (total * ep));
  }

  /** With a sink x: everything is relative to the larger of the two peaks. */
  lemma SinkNorm(e: real -> real, lg: real -> real, m: real, s: real, mass: real, x: real, peak: real, weight: real, rest: real, total: real)
    requires Exp(e) && Log(e, lg) && s >= 0.0 && s * e(m) == mass
    requires weight == e(m - peak) && rest == e(x - peak) && total == weight * s + rest
    ensures total > 0.0 && weight * (1.0 / total) * (mass + e(x)) == e(m) && e(peak + lg(total)) == mass + e(x)
  {
    ExpSum(e, m - peak, peak);
    ExpSum(e, x - peak, peak);
    TotalPositive(weight, s, rest);
    TotalTimes(weight, s, rest, e(peak), e(m), e(x));
    WeightedInverse(weight, total, e(peak));
    ExpSum(e, peak, lg(total));
  }

  /** norm = 1 / sum or 0; lse = log2(sum) + m or -inf; with a sink both are taken over one extra term. */
  method Norm(e: real -> real, lg: real -> real, m: real, s: real, sink: Sink, ghost mass: real) returns (norm: real, lse: Lse)
    requires Exp(e) && Log(e, lg) && s >= 0.0 && s * e(m) == mass
    ensures s > 0.0 ==> norm * (mass + SinkTerm(e, sink)) == e(m)
    ensures s > 0.0 ==> lse.Finite? && e(lse.x) == mass + SinkTerm(e, sink)
    ensures s == 0.0 ==> norm == 0.0 && lse == if sink.NoSink? then NegInfinity else Finite(sink.logit * LOG2E)
  {
    norm := if s > 0.0 then 1.0 / s else 0.0;
    lse := if s > 0.0 then Finite(lg(s) + m) else NegInfinity;
    if sink.NoSink? {
      if s > 0.0 {
        PlainNorm(e, lg, m, s, mass);
      }
    } else {
      norm, lse := WithSink(e, lg, m, s, sink.logit * LOG2E, norm, mass);
    }
  }

  /** The sink branch, from the norm computed without it. */
  method WithSink(e: real -> real, lg: real -> real, m: real, s: real, x: real, plain: real, ghost mass: real) returns (norm: real, lse: Lse)
    requires Exp(e) && Log(e, lg) && s >= 0.0 && s * e(m) == mass && (s == 0.0 ==> plain == 0.0)
    ensures s > 0.0 ==> norm * (mass + e(x)) == e(m) && lse.Finite? && e(lse.x) == mass + e(x)
    ensures s == 0.0 ==> norm == 0.0 && lse == Finite(x)
  {
    var peak := Max(x, m);
    var weight := e(m - peak);
    var rest := e(x - peak);
    var total := weight * s + rest;
    SinkNorm(e, lg, m, s, mass, x, peak, weight, rest, total);
    lse := if s > 0.0 then Finite(peak + lg(total)) else Finite(x);
    norm := if s > 0.0 then weight * (1.0 / total) else plain;
  }

  /** The sink's extra term of the denominator: its natural exponential, by exp2 and the kernel's log2 e. */
  ghost function SinkTerm(e: real -> real, sink: Sink): real { if sink.NoSink? then 0.0 else e(sink.logit * LOG2E) }

  lemma SumNonNegative(f: int -> real, lo: int, hi: int)
    requires forall i :: lo <= i < hi ==> f(i) >= 0.0
    ensures Sum(f, lo, hi) >= 0.0
    decreases hi - lo
  {
    if lo < hi {
      SumNonNegative(f, lo, hi - 1);
    }
  }

  lemma SumPositive(f: int -> real, lo: int, hi: int, k: int)
    requires (forall i :: lo <= i < hi ==> f(i) >= 0.0) && lo <= k < hi && f(k) > 0.0
    ensures Sum(f, lo, hi) > 0.0
  {
    SumSplit(f, lo, k, hi);
    SumSplit(f, k, k + 1, hi);
    SumNonNegative(f, lo, k);
    SumNonNegative(f, k + 1, hi);
    assert Sum(f, k, k + 1) == f(k);
  }

  ghost predicate AnyValid(t: Token)
    requires t.Valid()
  {
    (exists pos :: MainLive(t, pos)) || exists pos :: ExtraLive(t, pos)
  }

  lemma ShareSign(e: real -> real, h: Head, extra: bool, index: nat)
    requires Exp(e)
    ensures Share(e, h, Mass, extra, index) > 0.0
  {
    assert Args(h.score(extra, index), h.score(extra, index));
  }

  lemma SumSign(f: int -> real, n: nat)
    requires forall i :: 0 <= i < n ==> f(i) >= 0.0
    ensures Sum(f, 0, n) >= 0.0 && (Sum(f, 0, n) > 0.0 <==> exists i :: 0 <= i < n && f(i) > 0.0)
  {
    SumNonNegative(f, 0, n);
    if i :| 0 <= i < n && f(i) > 0.0 {
      SumPositive(f, 0, n, i);
    } else {
      SumZero(f, 0, n);
    }
  }

  /** The denominator is positive exactly when some position is valid. */
  lemma MassSign(e: real -> real, t: Token, h: Head)
    requires t.Valid() && Exp(e)
    ensures OneShot(e, t, h, Mass) >= 0.0 && (OneShot(e, t, h, Mass) > 0.0 <==> AnyValid(t))
  {
    var f, g := MainTerms(e, t, h, Mass), ExtraTerms(e, t, h, Mass);
    forall pos
      ensures f(pos) >= 0.0 && (f(pos) > 0.0 <==> MainLive(t, pos))
      ensures g(pos) >= 0.0 && (g(pos) > 0.0 <==> ExtraLive(t, pos))
    {
      if MainLive(t, pos) {
        ShareSign(e, h, false, t.indices[pos]);
      }
      if ExtraLive(t, pos) {
        ShareSign(e, h, true, t.extraIndices[pos]);
      }
    }
    SumSign(f, t.topk);
    SumSign(g, t.extraTopk);
  }

  lemma ScaledSign(s: real, em: real, mass: real)
    requires em > 0.0 && s * em == mass && mass >= 0.0
    ensures s >= 0.0 && (s > 0.0 <==> mass > 0.0)
  {
  }

  lemma ColumnScale(norm: real, acc: real, all: real, em: real, moment: real)
    requires norm * all == em && acc * em == moment
    ensures norm * acc * all == moment
  {
    assert norm * acc * all == acc * (norm * all);
  }

  /** The results against the one-shot sums: out[d] is their quotient with the sink's term in the denominator, lse the
      logarithm of that denominator; without a valid position the output is zero. */
  ghost predicate IsSoftmax(e: real -> real, sink: Sink, mass: real, moment: int -> real, out: seq<real>, lse: Lse) {
    && |out| == 512
    && if mass > 0.0 then
         && mass + SinkTerm(e, sink) > 0.0
         && (forall d :: 0 <= d < 512 ==> out[d] * (mass + SinkTerm(e, sink)) == moment(d))
         && lse.Finite? && e(lse.x) == mass + SinkTerm(e, sink)
       else
         && (forall d :: 0 <= d < 512 ==> out[d] == 0.0)
         && lse == if sink.NoSink? then NegInfinity else Finite(sink.logit * LOG2E)
  }

  /** One head of one token: the chunk loop and the epilogue. The output is the softmax over every valid position of both
      caches, with the sink as one more term of the denominator, whatever the chunks. */
  method Attend(e: real -> real, lg: real -> real, t: Token, h: Head, sink: Sink) returns (out: seq<real>, lse: Lse)
    requires t.Valid() && Exp(e) && Log(e, lg)
    ensures IsAttention(e, t, h, sink, out, lse)
  {
    ghost var mass, moment := OneShot(e, t, h, Mass), Moments(e, t, h);
    MassSign(e, t, h);
    out, lse := MarchAndFinish(e, lg, t, h, sink, mass, moment);
  }

  ghost function Moments(e: real -> real, t: Token, h: Head): int -> real
    requires t.Valid()
  {
    d => OneShot(e, t, h, Moment(d))
  }

  /** Which positions of the two caches are attended to, and which record each one names. */
  ghost predicate AttendsTo(t: Token)
    requires t.Valid()
  {
    && (forall pos :: MainCand(t, pos) ==
                      if 0 <= pos < t.topk && (t.hasLength ==> pos < t.length) && t.indices[pos] >= 0 then Record(false, t.indices[pos])
                      else Masked)
    && (forall pos :: ExtraCand(t, pos) ==
                      if t.hasExtra && 0 <= pos < t.extraTopk && (t.hasExtraLength ==> pos < t.extraLength) && t.extraIndices[pos] >= 0
                      then Record(true, t.extraIndices[pos])
                      else Masked)
    && forall pos :: (MainLive(t, pos) <==> MainCand(t, pos).Record?) && (ExtraLive(t, pos) <==> ExtraCand(t, pos).Record?)
  }

  /** The softmax over all positions of both caches at once; its denominator is positive exactly when a position is valid. */
  ghost predicate IsAttention(e: real -> real, t: Token, h: Head, sink: Sink, out: seq<real>, lse: Lse)
    requires t.Valid()
  {
    && AttendsTo(t)
    && (OneShot(e, t, h, Mass) > 0.0 <==> AnyValid(t))
    && IsSoftmax(e, sink, OneShot(e, t, h, Mass), Moments(e, t, h), out, lse)
  }

  ghost predicate AreMoments(moment: int -> real, e: real -> real, t: Token, h: Head)
    requires t.Valid()
  {
    forall d {:trigger moment(d)} :: IsOneShot(moment(d), e, t, h, Moment(d))
  }

  method MarchAndFinish(e: real -> real, lg: real -> real, t: Token, h: Head, sink: Sink, ghost mass: real, ghost moment: int -> real)
    returns (out: seq<real>, lse: Lse)
    requires t.Valid() && Exp(e) && Log(e, lg) && mass >= 0.0
    requires IsOneShot(mass, e, t, h, Mass) && AreMoments(moment, e, t, h)
    ensures IsSoftmax(e, sink, mass, moment, out, lse)
  {
    var m, s, acc := March(e, t, h);
    ghost var em := e(m);
    assert m - 0.0 == m;
    FinalSum(e, t, h, Mass, m, em, s, mass);
    ExpSum(e, m, 0.0);
    ScaledSign(s, em, mass);
    var norm;
    norm, lse := Norm(e, lg, m, s, sink, mass);
    SinkSign(e, sink);
    out := Store(e, t, h, m, em, acc, norm, mass + SinkTerm(e, sink), mass > 0.0, moment);
  }

  lemma SinkSign(e: real -> real, sink: Sink)
    requires Exp(e)
    ensures SinkTerm(e, sink) >= 0.0
  {
    if sink.SinkAt? {
      ExpSum(e, sink.logit * LOG2E, 0.0);
    }
  }

  /** The state after the last chunk, its sums closed. */
  ghost predicate Final(e: real -> real, t: Token, h: Head, m: real, s: real, acc: seq<real>)
    requires t.Valid()
  {
    && |acc| == DV && IsPeak(t, h, 64 * t.Chunks(), m) && IsSum(s, Terms(e, t, h, Mass, m), 64 * t.Chunks())
    && forall d {:trigger acc[d]} :: 0 <= d < DV ==> IsSum(acc[d], Terms(e, t, h, Moment(d), m), 64 * t.Chunks())
  }

  /** The chunk loop, from m = -1e30, sum = 0 and zero accumulators. */
  method March(e: real -> real, t: Token, h: Head) returns (m: real, s: real, acc: seq<real>)
    requires t.Valid() && Exp(e)
    ensures Final(e, t, h, m, s, acc)
  {
    m, s := NEG, 0.0;
    var a := new real[DV](i => 0.0);
    for c := 0 to t.Chunks()
      invariant Represents(e, t, h, c * 64, m, s, a[..])
    {
      m, s := Chunk(e, t, h, c, m, s, a);
    }
    acc := a[..];
    CloseState(e, t, h, m, s, acc);
  }

  lemma CloseState(e: real -> real, t: Token, h: Head, m: real, s: real, acc: seq<real>)
    requires t.Valid() && Represents(e, t, h, t.Chunks() * 64, m, s, acc)
    ensures Final(e, t, h, m, s, acc)
  {
  }

  /** One output column: norm times its accumulator. */
  method StoreColumn(e: real -> real, t: Token, h: Head, ghost m: real, ghost em: real, d: int, acc: real, norm: real,
                     ghost all: real, ghost any: bool, ghost y: real) returns (x: real)
    requires t.Valid() && Exp(e) && em == e(m) && IsSum(acc, Terms(e, t, h, Moment(d), m), 64 * t.Chunks())
    requires IsOneShot(y, e, t, h, Moment(d)) && if any then norm * all == em else norm == 0.0
    ensures if any then x * all == y else x == 0.0
  {
    assert m - 0.0 == m;
    FinalSum(e, t, h, Moment(d), m, em, acc, y);
    x := norm * acc;
    if any {
      ColumnScale(norm, acc, all, em, y);
    }
  }

  ghost predicate Stored(x: real, all: real, any: bool, y: real) { if any then x * all == y else x == 0.0 }

  method Store(e: real -> real, t: Token, h: Head, ghost m: real, ghost em: real, acc: seq<real>, norm: real, ghost all: real, ghost any: bool,
               ghost moment: int -> real) returns (out: seq<real>)
    requires t.Valid() && Exp(e) && em == e(m) && |acc| == DV && AreMoments(moment, e, t, h)
    requires forall d {:trigger acc[d]} :: 0 <= d < DV ==> IsSum(acc[d], Terms(e, t, h, Moment(d), m), 64 * t.Chunks())
    requires if any then norm * all == em else norm == 0.0
    ensures |out| == DV && forall d :: 0 <= d < DV ==> Stored(out[d], all, any, moment(d))
  {
    out := [];
    for d := 0 to DV
      invariant |out| == d && forall i :: 0 <= i < d ==> Stored(out[i], all, any, moment(i))
    {
      ghost var y := moment(d);
      var x := StoreColumn(e, t, h, m, em, d, acc[d], norm, all, any, y);
      out := out + [x];
    }
  }
}
