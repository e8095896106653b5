/** The 2-bit MoE GEMM: one warp-split, fragment-major kernel against a plain scaled matrix product.
    Arithmetic is exact; each SASS instruction acts on the 32 lanes of a warp at once. */
module MoeW2Gemm {
  import opened Arithmetic
  import opened Sums
  import opened Sass
  import opened FragmentLayout

  /** One descriptor entry and its launch: mc (1 = decode, 4 = full m16 tile), m_rows, N = 16 nblocks,
      K = 128 kb128 split evenly over nwarp warps, the four planes in memory, and the value the tensor core gives
      an fp8 byte and a scale byte. */
  datatype Problem = Problem(mc: nat, mRows: nat, nblocks: nat, kb128: nat, nwarp: nat, slice128: nat,
                             a: Matrix<bv8>, aScale: Matrix<real>, plane: seq<bv8>, sPlane: seq<bv8>,
                             fp8: bv8 -> real, ue8m0: bv8 -> real)
  {
    function N(): nat { 16 * nblocks }
    function K(): nat { 128 * kb128 }
    function KBlocks(): nat { 2 * kb128 }
    function KGroups(): nat { 4 * kb128 }
    function KSlice(): nat { 128 * slice128 }

    /** A[row, k] and As[row, k/32] in memory; the kernel's predicates keep the row below m_rows. */
    function LoadA8(row: int, k: int): bv8
      requires 0 <= row < mRows && 0 <= k < K()
    {
      a(row, k)
    }

    function LoadAs(row: int, kg: int): real
      requires 0 <= row < mRows && 0 <= kg < KGroups()
    {
      aScale(row, kg)
    }

    ghost predicate Valid() {
      && (mc == 1 || mc == 4)
      && 1 <= nwarp <= 8 && slice128 > 0 && kb128 == nwarp * slice128
      && CodeValues(fp8)
    }

  }

  /** The weight matrix behind the planes: codes, scale bytes, and the terms term(r, n)(k) of the product.
      The terms are a field so that a proof sees their value only where it mentions Entry(r, n, k). */
  datatype Weights = Weights(codes: Matrix<bv8>, scales: Matrix<bv8>, term: Matrix<int -> real>) {
    ghost predicate Packed(p: Problem)
      requires p.Valid()
    {
      && TwoBit(codes)
      && p.plane == PackFragmentMajor(codes, p.nblocks, p.KBlocks())
      && p.sPlane == PackScales(scales, p.nblocks, p.KGroups())
      && forall r, n, k {:trigger Entry(r, n, k)} :: term(r, n)(k) == Term(p, codes, scales, r, n, k)
    }
  }

  ghost predicate Entry(r: int, n: int, k: int) { true }

  // ------------------------------------------------------------------ the reference product

  function Level(code: bv8): real {
    if code == 0 then -4.0 else if code == 1 then -1.0 else if code == 2 then 1.0 else 4.0
  }

  /** The e4m3 byte the PRMT lookup table 0x4838b8c8 holds for a code. */
  function CodeByte(code: bv8): bv8 {
    if code == 0 then 0xc8 else if code == 1 then 0xb8 else if code == 2 then 0x38 else 0x48
  }

  /** All the product needs from the fp8 format: the zero byte and the four bytes of the lookup table. */
  ghost predicate CodeValues(fp8: bv8 -> real) {
    fp8(0) == 0.0 && fp8(0xc8) == -4.0 && fp8(0xb8) == -1.0 && fp8(0x38) == 1.0 && fp8(0x48) == 4.0
  }

  lemma E4m3CodeValues()
    ensures CodeValues(E4m3)
  {
    assert Pow2(0) == 1.0 && Pow2(-1) == 0.5 && Pow2(-2) == 0.25 && Pow2(-3) == 0.125;
  }

  /** pack_scales: [N, K/32] viewed as [N/16, 16, K/32] with the last two axes swapped. */
  function PackScales(scales: Matrix<bv8>, nblocks: nat, kgroups: nat): (plane: seq<bv8>)
    requires kgroups > 0
    ensures |plane| == nblocks * kgroups * 16
  {
    seq(nblocks * kgroups * 16, i requires i >= 0 => scales(i / 16 / kgroups * 16 + i % 16, i / 16 % kgroups))
  }

  /** The k-th term of C[r, n]: A[r,k] As[r,k/32] level(code[n,k]) scale[n,k/32]. */
  function Term(p: Problem, codes: Matrix<bv8>, scales: Matrix<bv8>, r: int, n: int, k: int): real {
    p.fp8(p.a(r, k)) * p.aScale(r, k / 32) * Level(codes(n, k)) * p.ue8m0(scales(n, k / 32))
  }

  ghost function Reference(p: Problem, codes: Matrix<bv8>, scales: Matrix<bv8>, r: int, n: int): real {
    Sum(k => Term(p, codes, scales, r, n, k), 0, p.K())
  }

  // ------------------------------------------------------------------ registers and the tensor-core step

  /** An accumulator quad: c0, c1 are row g, c2, c3 row g + 8; even entries column 2t, odd ones 2t + 1. */
  type Quads = q: seq<Word<real>> | |q| == 32 witness seq(32, i => Word(0.0, 0.0, 0.0, 0.0))

  function QuadRow(lane: int, i: int): int { lane / 4 + i / 2 * 8 }
  function QuadCol(lane: int, i: int): int { lane % 4 * 2 + i % 2 }


  /** The A fragment of a k32: registers a0..a3 of the 32 lanes. */
  type AFrag = seq<seq<Word<bv8>>>

  predicate IsFrag(f: AFrag) { |f| == 4 && |f[0]| == 32 && |f[1]| == 32 && |f[2]| == 32 && |f[3]| == 32 }

  /** Lane (g, t) supplies row g at k = 4t + j and k = 16 + 4t + j (a0, a2), row g + 8 likewise (a1, a3). */
  function AAt(f: AFrag, row: int, k: int): bv8
    requires IsFrag(f) && 0 <= row < 16 && 0 <= k < 32
  {
    f[row / 8 + k / 16 * 2][row % 8 * 4 + k % 16 / 4].At(k % 4)
  }

  /** The decoded words of all lanes: word w of a lane is register R(32 + w). */
  ghost predicate Decoded(d: seq<seq<Word<bv8>>>) { |d| == 32 && forall l :: 0 <= l < 32 ==> |d[l]| == 8 }

  /** The B fragment in words first and first + 1: lane (g, t) supplies column g at k = 4t + j and k = 16 + 4t + j. */
  function BAt(d: seq<seq<Word<bv8>>>, first: int, col: int, k: int): bv8
    requires Decoded(d) && 0 <= first < 7 && 0 <= col < 8 && 0 <= k < 32
  {
    d[col * 4 + k % 16 / 4][first + k / 16].At(k % 4)
  }

  function QmmaTerm(p: Problem, a: AFrag, d: seq<seq<Word<bv8>>>, first: int, sfb: seq<bv8>, row: int, col: int, k: int): real
    requires IsFrag(a) && Decoded(d) && 0 <= first < 7 && |sfb| == 32 && 0 <= row < 16 && 0 <= col < 8 && 0 <= k < 32
  {
    p.fp8(AAt(a, row, k)) * p.fp8(BAt(d, first, col, k)) * p.ue8m0(sfb[col * 4])
  }

  /** dot(row, col) lists the products of A row and B column, the column's scale byte applied. */
  ghost predicate DotIs(dot: Matrix<int -> real>, p: Problem, a: AFrag, d: seq<seq<Word<bv8>>>, first: int, sfb: seq<bv8>)
    requires IsFrag(a) && Decoded(d) && 0 <= first < 7 && |sfb| == 32
  {
    forall row, col, k {:trigger Entry(row, col, k)} :: 0 <= row < 16 && 0 <= col < 8 && 0 <= k < 32 ==>
      dot(row, col)(k) == QmmaTerm(p, a, d, first, sfb, row, col, k)
  }

  /** QMMA.SF.16832 with a neutral sfa, the contract of the tensor-core step: every accumulator element gains the
      dot product of its A row and B column. */
  method Qmma(p: Problem, a: AFrag, d: seq<seq<Word<bv8>>>, first: int, sfb: seq<bv8>, c: Quads)
    returns (q: Quads, ghost dot: Matrix<int -> real>)
    requires IsFrag(a) && Decoded(d) && 0 <= first < 7 && |sfb| == 32
    ensures forall l, i {:trigger q[l].At(i)} :: 0 <= l < 32 && 0 <= i < 4 ==>
      q[l].At(i) == c[l].At(i) + Sum(dot(QuadRow(l, i), QuadCol(l, i)), 0, 32)
    ensures DotIs(dot, p, a, d, first, sfb)
  {
    var f: Matrix<int -> real> := (row, col) => (k =>
      if 0 <= row < 16 && 0 <= col < 8 && 0 <= k < 32 then QmmaTerm(p, a, d, first, sfb, row, col, k) else 0.0);
    q := AddDots(c, f);
    dot := f;
  }

  method AddDots(c: Quads, f: Matrix<int -> real>) returns (q: Quads)
    ensures forall l, i {:trigger q[l].At(i)} :: 0 <= l < 32 && 0 <= i < 4 ==>
      q[l].At(i) == c[l].At(i) + Sum(f(QuadRow(l, i), QuadCol(l, i)), 0, 32)
  {
    q := seq(32, l requires 0 <= l < 32 =>
      Word(c[l].e0 + Sum(f(QuadRow(l, 0), QuadCol(l, 0)), 0, 32), c[l].e1 + Sum(f(QuadRow(l, 1), QuadCol(l, 1)), 0, 32),
           c[l].e2 + Sum(f(QuadRow(l, 2), QuadCol(l, 2)), 0, 32), c[l].e3 + Sum(f(QuadRow(l, 3), QuadCol(l, 3)), 0, 32)));
  }

  // ------------------------------------------------------------------ loads and decode

  /** Rows a lane's predicates let it load: P2 (g < m_rows) and, with MC = 4, P5 (g + 8 < m_rows). */
  predicate Loads(p: Problem, row: int) { row < p.mRows && (row < 8 || p.mc == 4) }

  /** A register that its predicate never lets through still holds the zero of the prologue. */
  ghost predicate PadZero(p: Problem, f: AFrag) {
    IsFrag(f) && forall row, k :: 0 <= row < 16 && 0 <= k < 32 && !Loads(p, row) ==> AAt(f, row, k) == 0
  }

  /** Element (row, k) of the fragment is A[row, base + k], or the pad zero. */
  ghost predicate ElementHeld(p: Problem, f: AFrag, base: nat, row: int, k: int)
    requires IsFrag(f) && 0 <= row < 16 && 0 <= k < 32
  {
    AAt(f, row, k) == if Loads(p, row) then p.a(row, base + k) else 0
  }

  ghost predicate HoldsA(p: Problem, f: AFrag, base: nat) {
    IsFrag(f) && forall row, k :: 0 <= row < 16 && 0 <= k < 32 ==> ElementHeld(p, f, base, row, k)
  }

  lemma HoldsAPad(p: Problem, f: AFrag, base: nat)
    requires HoldsA(p, f, base)
    ensures PadZero(p, f)
  {
    forall row, k | 0 <= row < 16 && 0 <= k < 32 && !Loads(p, row)
      ensures AAt(f, row, k) == 0
    {
      assert ElementHeld(p, f, base, row, k);
    }
  }

  lemma RowBound(rows: nat, width: nat, r: nat, k: nat)
    requires r < rows && k < width
    ensures 0 <= r * width + k < rows * width
  {
    assert (r + 1) * width <= rows * width;
  }

  /** What one predicated LDG.E of four A bytes leaves in a lane's register. */
  ghost predicate WordHeld(p: Problem, w: Word<bv8>, was: Word<bv8>, row: int, k: int) {
    w == if Loads(p, row) then Word(p.a(row, k), p.a(row, k + 1), p.a(row, k + 2), p.a(row, k + 3)) else was
  }

  /** LDG.E of row g + rowOff, columns kOff + 4t .. kOff + 4t + 3, in all lanes. */
  method LoadAWord(p: Problem, was: seq<Word<bv8>>, rowOff: nat, kOff: nat) returns (r: seq<Word<bv8>>)
    requires p.Valid() && |was| == 32 && rowOff <= 8 && kOff + 16 <= p.K()
    ensures WordsHeld(p, r, was, rowOff, kOff)
  {
    r := [];
    for l := 0 to 32
      invariant |r| == l
      invariant forall m :: 0 <= m < l ==> WordHeld(p, r[m], was[m], m / 4 + rowOff, kOff + m % 4 * 4)
    {
      var w := was[l];
      if Loads(p, l / 4 + rowOff) {
        var k := kOff + l % 4 * 4;
        var row := l / 4 + rowOff;
        w := Word(p.LoadA8(row, k), p.LoadA8(row, k + 1), p.LoadA8(row, k + 2), p.LoadA8(row, k + 3));
      }
      r := r + [w];
    }
  }

  ghost predicate WordsHeld(p: Problem, r: seq<Word<bv8>>, was: seq<Word<bv8>>, rowOff: nat, kOff: nat) {
    |r| == 32 && |was| == 32 && forall l :: 0 <= l < 32 ==> WordHeld(p, r[l], was[l], l / 4 + rowOff, kOff + l % 4 * 4)
  }

  lemma ElementOfWord(p: Problem, r: AFrag, f: AFrag, base: nat, row: nat, k: nat)
    requires IsFrag(r) && PadZero(p, f) && row < 16 && k < 32
    requires var q := row / 8 + k / 16 * 2;
      if row < 8 || p.mc == 4 then WordsHeld(p, r[q], f[q], row / 8 * 8, base + k / 16 * 16) else r[q] == f[q]
    ensures ElementHeld(p, r, base, row, k)
  {
    var q := row / 8 + k / 16 * 2;
    var lane := row % 8 * 4 + k % 16 / 4;
    assert lane / 4 + row / 8 * 8 == row;
    var at := base + k / 16 * 16 + lane % 4 * 4;
    assert at + k % 4 == base + k;
    assert !Loads(p, row) ==> AAt(f, row, k) == 0;
    assert Loads(p, row) ==> WordHeld(p, r[q][lane], f[q][lane], row, at);
  }

  /** The four (eight with MC = 4) A loads of one k32. */
  method LoadA(p: Problem, f: AFrag, base: nat) returns (r: AFrag)
    requires p.Valid() && base + 32 <= p.K() && PadZero(p, f)
    ensures HoldsA(p, r, base) && PadZero(p, r)
  {
    var a0 := LoadAWord(p, f[0], 0, base);
    var a2 := LoadAWord(p, f[2], 0, base + 16);
    var a1, a3 := f[1], f[3];
    if p.mc == 4 {
      a1 := LoadAWord(p, f[1], 8, base);
      a3 := LoadAWord(p, f[3], 8, base + 16);
    }
    r := [a0, a1, a2, a3];
    Loaded(p, f, r, base);
    HoldsAPad(p, r, base);
  }

  lemma Loaded(p: Problem, f: AFrag, r: AFrag, base: nat)
    requires PadZero(p, f) && |r| == 4 && WordsHeld(p, r[0], f[0], 0, base) && WordsHeld(p, r[2], f[2], 0, base + 16)
    requires if p.mc == 4 then WordsHeld(p, r[1], f[1], 8, base) && WordsHeld(p, r[3], f[3], 8, base + 16) else r[1] == f[1] && r[3] == f[3]
    ensures HoldsA(p, r, base)
  {
    forall row, k | 0 <= row < 16 && 0 <= k < 32
      ensures ElementHeld(p, r, base, row, k)
    {
      var q := row / 8 + k / 16 * 2;
      assert q == if row < 8 then (if k < 16 then 0 else 2) else if k < 16 then 1 else 3;
      ElementOfWord(p, r, f, base, row, k);
    }
  }

  lemma LutByte(code: bv8, nib: bv32)
    requires code < 4 && nib == code as bv32
    ensures PrmtByte(0x4838b8c8, 0, nib) == CodeByte(code)
  {
  }

  /** Decode one byte of the loaded code words into a B register. */
  method DecodeByte(r: bv32, ghost b: bv8) returns (w: Word<bv8>)
    requires r & 0xff == b as bv32
    ensures forall j :: 0 <= j < 4 ==> w.At(j) == CodeByte(Field(b, j))
  {
    var sel := SpreadByte(r, b);
    var out := Prmt(0x4838b8c8, sel, 0);
    LutByte(Field(b, 0), Nibble(sel, 0));
    LutByte(Field(b, 1), Nibble(sel, 1));
    LutByte(Field(b, 2), Nibble(sel, 2));
    LutByte(Field(b, 3), Nibble(sel, 3));
    w := Word(out[0], out[1], out[2], out[3]);
  }

  /** The decoded registers of a k64 block hold the code bytes of that block's matrix elements. */
  ghost predicate HoldsB(d: seq<seq<Word<bv8>>>, codes: Matrix<bv8>, nb: nat, kb: nat) {
    Decoded(d) && forall l, w, j {:trigger d[l][w].At(j)} :: 0 <= l < 32 && 0 <= w < 8 && 0 <= j < 4 ==>
      d[l][w].At(j) == CodeByte(codes(WordRow(nb, l, w), WordCol(kb, l, w, j)))
  }

  /** LDG.E.64 of a lane's chunk and the decode of its eight bytes into R32..R39. */
  method DecodeChunk(plane: seq<bv8>, addr: nat) returns (d: seq<Word<bv8>>)
    requires addr + 8 <= |plane|
    ensures |d| == 8
    ensures forall w, j {:trigger d[w].At(j)} :: 0 <= w < 8 && 0 <= j < 4 ==> d[w].At(j) == CodeByte(Field(plane[addr + w], j))
  {
    d := [];
    for half := 0 to 2
      invariant |d| == 4 * half
      invariant forall w, j {:trigger d[w].At(j)} :: 0 <= w < 4 * half && 0 <= j < 4 ==>
        d[w].At(j) == CodeByte(Field(plane[addr + w], j))
    {
      var at := addr + 4 * half;
      var r := LoadWord(plane[at], plane[at + 1], plane[at + 2], plane[at + 3]);
      var w0 := DecodeByte(r, plane[at]);
      var w1 := DecodeByte(r >> 8, plane[at + 1]);
      var w2 := DecodeByte(r >> 16, plane[at + 2]);
      var w3 := DecodeByte(r >> 24, plane[at + 3]);
      d := d + [w0, w1, w2, w3];
    }
  }

  /** The B side of one k64 block: 256 bytes at ((nb K/64 + kb) 256) + 8 lane. */
  method DecodeBlock(p: Problem, ghost w: Weights, nb: nat, kb: nat)
    returns (d: seq<seq<Word<bv8>>>)
    requires p.Valid() && w.Packed(p) && nb < p.nblocks && kb < p.KBlocks()
    ensures HoldsB(d, w.codes, nb, kb)
  {
    d := [];
    for l := 0 to 32
      invariant |d| == l && forall m :: 0 <= m < l ==> |d[m]| == 8
      invariant forall m, i, j {:trigger d[m][i].At(j)} :: 0 <= m < l && 0 <= i < 8 && 0 <= j < 4 ==>
        d[m][i].At(j) == CodeByte(w.codes(WordRow(nb, m, i), WordCol(kb, m, i, j)))
    {
      var addr := ChunkIndex(p.KBlocks(), nb, kb, l) * 8;
      ChunkBound(p.nblocks, p.KBlocks(), nb, kb, l);
      var c := DecodeChunk(p.plane, addr);
      forall i, j | 0 <= i < 8 && 0 <= j < 4
        ensures c[i].At(j) == CodeByte(w.codes(WordRow(nb, l, i), WordCol(kb, l, i, j)))
      {
        PackedFields(w.codes, p.nblocks, p.KBlocks(), nb, kb, l, i);
      }
      d := d + [c];
    }
  }

  /** LDG.E.U8 of the scale byte of row 8 tile + g in k32 group kg. */
  method LoadScales(p: Problem, ghost w: Weights, nb: nat, kg: nat, tile: nat) returns (s: seq<bv8>)
    requires p.Valid() && w.Packed(p) && nb < p.nblocks && kg < p.KGroups() && tile < 2
    ensures HoldsS(s, w.scales, nb, kg, tile)
  {
    s := [];
    for l := 0 to 32
      invariant |s| == l
      invariant forall m :: 0 <= m < l ==> s[m] == w.scales(nb * 16 + tile * 8 + m / 4, kg)
    {
      var addr := (nb * p.KGroups() + kg) * 16 + tile * 8 + l / 4;
      PackedScale(w.scales, p.nblocks, p.KGroups(), nb, kg, tile * 8 + l / 4);
      s := s + [p.sPlane[addr]];
    }
  }

  lemma PackedScale(scales: Matrix<bv8>, nblocks: nat, kgroups: nat, nb: nat, kg: nat, r: nat)
    requires nb < nblocks && kg < kgroups && r < 16
    ensures 0 <= (nb * kgroups + kg) * 16 + r < nblocks * kgroups * 16
    ensures PackScales(scales, nblocks, kgroups)[(nb * kgroups + kg) * 16 + r] == scales(nb * 16 + r, kg)
  {
    var i := (nb * kgroups + kg) * 16 + r;
    RowBound(nblocks, kgroups, nb, kg);
    DivModUnique(i, 16, nb * kgroups + kg, r);
    DivModUnique(nb * kgroups + kg, kgroups, nb, kg);
  }

  /** LDG.E of the per-32 A scale of row g + rowOff; lanes whose predicate is off keep the old register. */
  method LoadAScale(p: Problem, was: seq<real>, rowOff: nat, kg: nat) returns (x: seq<real>)
    requires p.Valid() && |was| == 32 && rowOff <= 8 && kg < p.KGroups()
    ensures HoldsX(p, x, rowOff, kg)
  {
    x := [];
    for l := 0 to 32
      invariant |x| == l
      invariant forall m :: 0 <= m < l && Loads(p, m / 4 + rowOff) ==> x[m] == p.aScale(m / 4 + rowOff, kg)
    {
      x := x + [if Loads(p, l / 4 + rowOff) then p.LoadAs(l / 4 + rowOff, kg) else was[l]];
    }
  }

  // ------------------------------------------------------------------ the K march

  ghost function Partial(p: Problem, w: Weights, r: int, n: int, lo: int, hi: int): real {
    if Loads(p, r) then Sum(w.term(r, n), lo, hi) else 0.0
  }

  /** A master quad register holds the sums over [lo, hi) of its 16 x 8 tile. */
  ghost predicate Masters(p: Problem, w: Weights, nb: nat, tile: nat, m: Quads, lo: int, hi: int) {
    forall l, i {:trigger m[l].At(i)} :: 0 <= l < 32 && 0 <= i < 4 ==>
      m[l].At(i) == Partial(p, w, QuadRow(l, i), nb * 16 + tile * 8 + QuadCol(l, i), lo, hi)
  }

  /** sfb: every lane of column g supplies the scale byte of matrix row 16 nb + 8 tile + g. */
  ghost predicate HoldsS(sfb: seq<bv8>, scales: Matrix<bv8>, nb: nat, kg: nat, tile: nat) {
    |sfb| == 32 && forall l :: 0 <= l < 32 ==> sfb[l] == scales(nb * 16 + tile * 8 + l / 4, kg)
  }

  /** The registers one k32 step of one tile reads. */
  ghost predicate StepHolds(p: Problem, w: Weights, nb: nat, kb: nat, half: nat, tile: nat,
                            a: AFrag, d: seq<seq<Word<bv8>>>, sfb: seq<bv8>)
  {
    && p.Valid() && w.Packed(p) && nb < p.nblocks && kb < p.KBlocks() && half < 2 && tile < 2
    && HoldsA(p, a, (kb * 2 + half) * 32) && HoldsB(d, w.codes, nb, kb) && HoldsS(sfb, w.scales, nb, kb * 2 + half, tile)
  }

  lemma StepIndex(nb: nat, kb: nat, half: nat, tile: nat, col: nat, k: nat, lane: nat, w: nat)
    requires half < 2 && tile < 2 && col < 8 && k < 32
    requires lane == col * 4 + k % 16 / 4 && w == tile * 4 + half * 2 + k / 16
    ensures lane < 32 && w < 8
    ensures WordRow(nb, lane, w) == nb * 16 + tile * 8 + col
    ensures WordCol(kb, lane, w, k % 4) == (kb * 2 + half) * 32 + k
  {
    assert k == k / 16 * 16 + k % 16 && k % 16 == k % 16 / 4 * 4 + k % 4;
    assert lane / 4 == col && lane % 4 == k % 16 / 4;
    assert w / 4 == tile && w / 2 % 2 == half && w % 2 == k / 16;
  }

  /** The B fragment a k32 step of a tile reads is that tile's slice of the code matrix. */
  lemma StepCode(d: seq<seq<Word<bv8>>>, codes: Matrix<bv8>, nb: nat, kb: nat, half: nat, tile: nat, col: nat, k: nat)
    requires HoldsB(d, codes, nb, kb) && half < 2 && tile < 2 && col < 8 && k < 32
    ensures BAt(d, tile * 4 + half * 2, col, k) == CodeByte(codes(nb * 16 + tile * 8 + col, (kb * 2 + half) * 32 + k))
  {
    var lane, i := col * 4 + k % 16 / 4, tile * 4 + half * 2 + k / 16;
    StepIndex(nb, kb, half, tile, col, k, lane, i);
    assert BAt(d, tile * 4 + half * 2, col, k) == d[lane][i].At(k % 4);
  }

  /** The three factors of a tensor-core product: the A byte (or the pad zero), the level of the code, the block scale. */
  lemma StepFactors(p: Problem, w: Weights, nb: nat, kb: nat, half: nat, tile: nat,
                    a: AFrag, d: seq<seq<Word<bv8>>>, sfb: seq<bv8>, row: nat, col: nat, k: nat) returns (av: real, bv: real, sv: real)
    requires StepHolds(p, w, nb, kb, half, tile, a, d, sfb) && row < 16 && col < 8 && k < 32
    ensures av == p.fp8(AAt(a, row, k)) && bv == p.fp8(BAt(d, tile * 4 + half * 2, col, k)) && sv == p.ue8m0(sfb[col * 4])
    ensures av == if Loads(p, row) then p.fp8(p.a(row, (kb * 2 + half) * 32 + k)) else 0.0
    ensures bv == Level(w.codes(nb * 16 + tile * 8 + col, (kb * 2 + half) * 32 + k))
    ensures sv == p.ue8m0(w.scales(nb * 16 + tile * 8 + col, kb * 2 + half))
  {
    assert ElementHeld(p, a, (kb * 2 + half) * 32, row, k);
    StepCode(d, w.codes, nb, kb, half, tile, col, k);
    av, bv, sv := p.fp8(AAt(a, row, k)), p.fp8(BAt(d, tile * 4 + half * 2, col, k)), p.ue8m0(sfb[col * 4]);
  }

  /** One QMMA and its fold advance a sum by one k32 group, whatever the terms are. */
  lemma FoldSum(f: int -> real, g: int -> real, x: real, acc: real, m: real, lo: int, base: int)
    requires acc == 0.0 && lo <= base && m == Sum(g, lo, base)
    requires forall i :: 0 <= i < 32 ==> g(base + i) == f(i) * x
    ensures m + (acc + Sum(f, 0, 32)) * x == Sum(g, lo, base + 32)
  {
    SumShiftScale(f, g, x, base, 32);
    SumSplit(g, lo, base, base + 32);
  }

  /** fold(): masters += accumulator * As, rows g + 8 only with MC = 4. */
  function Fold(mc: nat, m: Word<real>, acc: Word<real>, x: real, y: real): Word<real> {
    if mc == 4 then Word(m.e0 + acc.e0 * x, m.e1 + acc.e1 * x, m.e2 + acc.e2 * y, m.e3 + acc.e3 * y)
    else Word(m.e0 + acc.e0 * x, m.e1 + acc.e1 * x, m.e2, m.e3)
  }

  method FoldAll(mc: nat, m: Quads, acc: Quads, x: seq<real>, y: seq<real>) returns (m': Quads)
    requires |x| == 32 && |y| == 32
    ensures forall l :: 0 <= l < 32 ==> m'[l] == Fold(mc, m[l], acc[l], x[l], y[l])
  {
    m' := seq(32, l requires 0 <= l < 32 => Fold(mc, m[l], acc[l], x[l], y[l]));
  }

  lemma FoldAt(mc: nat, m: Word<real>, acc: Word<real>, x: real, y: real, i: int)
    requires 0 <= i < 4
    ensures Fold(mc, m, acc, x, y).At(i)
         == if i < 2 then m.At(i) + acc.At(i) * x else if mc == 4 then m.At(i) + acc.At(i) * y else m.At(i)
  {
  }

  /** The accumulators the fold has consumed are zero again. */
  ghost predicate Reset(mc: nat, acc: Quads) {
    forall l, i {:trigger acc[l].At(i)} :: 0 <= l < 32 && 0 <= i < 4 && (i < 2 || mc == 4) ==> acc[l].At(i) == 0.0
  }

  ghost predicate HoldsX(p: Problem, x: seq<real>, rowOff: nat, kg: nat) {
    |x| == 32 && forall l :: 0 <= l < 32 && Loads(p, l / 4 + rowOff) ==> x[l] == p.aScale(l / 4 + rowOff, kg)
  }

  /** Two QMMA quadrants of one tile for one k32, then the fold. */
  method StepTile(p: Problem, ghost w: Weights, nb: nat, kb: nat, half: nat, tile: nat,
                  a: AFrag, d: seq<seq<Word<bv8>>>, sfb: seq<bv8>, x: seq<real>, y: seq<real>, acc: Quads, m: Quads, ghost lo: nat)
    returns (acc': Quads, m': Quads)
    requires StepHolds(p, w, nb, kb, half, tile, a, d, sfb) && Reset(p.mc, acc)
    requires HoldsX(p, x, 0, kb * 2 + half) && HoldsX(p, y, 8, kb * 2 + half)
    requires lo <= (kb * 2 + half) * 32 && Masters(p, w, nb, tile, m, lo, (kb * 2 + half) * 32)
    ensures Reset(p.mc, acc')
    ensures Masters(p, w, nb, tile, m', lo, (kb * 2 + half) * 32 + 32)
  {
    ghost var base := (kb * 2 + half) * 32;
    var q, dot := Qmma(p, a, d, tile * 4 + half * 2, sfb, acc);
    m' := FoldAll(p.mc, m, q, x, y);
    acc' := seq(32, l requires 0 <= l < 32 => if p.mc == 4 then Word(0.0, 0.0, 0.0, 0.0) else Word(0.0, 0.0, q[l].e2, q[l].e3));
    forall l, i | 0 <= l < 32 && 0 <= i < 4
      ensures m'[l].At(i) == Partial(p, w, QuadRow(l, i), nb * 16 + tile * 8 + QuadCol(l, i), lo, base + 32)
    {
      assert q[l].At(i) == acc[l].At(i) + Sum(dot(QuadRow(l, i), QuadCol(l, i)), 0, 32);
      FoldedElement(p, w, nb, kb, half, tile, a, d, sfb, dot, x, y, acc[l].At(i), m[l], q[l], m'[l], l, i, lo);
    }
  }

  lemma FoldedElement(p: Problem, w: Weights, nb: nat, kb: nat, half: nat, tile: nat,
                      a: AFrag, d: seq<seq<Word<bv8>>>, sfb: seq<bv8>, dot: Matrix<int -> real>, x: seq<real>, y: seq<real>,
                      acc: real, m: Word<real>, q: Word<real>, m': Word<real>, l: nat, i: nat, lo: nat)
    requires StepHolds(p, w, nb, kb, half, tile, a, d, sfb) && DotIs(dot, p, a, d, tile * 4 + half * 2, sfb)
    requires l < 32 && i < 4 && lo <= (kb * 2 + half) * 32
    requires HoldsX(p, x, 0, kb * 2 + half) && HoldsX(p, y, 8, kb * 2 + half)
    requires i < 2 || p.mc == 4 ==> acc == 0.0
    requires m.At(i) == Partial(p, w, QuadRow(l, i), nb * 16 + tile * 8 + QuadCol(l, i), lo, (kb * 2 + half) * 32)
    requires q.At(i) == acc + Sum(dot(QuadRow(l, i), QuadCol(l, i)), 0, 32)
    requires m' == Fold(p.mc, m, q, x[l], y[l])
    ensures m'.At(i) == Partial(p, w, QuadRow(l, i), nb * 16 + tile * 8 + QuadCol(l, i), lo, (kb * 2 + half) * 32 + 32)
  {
    var row := QuadRow(l, i);
    assert row == l / 4 + (if i < 2 then 0 else 8);
    FoldAt(p.mc, m, q, x[l], y[l], i);
    StepElement(p, w, nb, kb, half, tile, a, d, sfb, dot, acc, m.At(i), row, QuadCol(l, i), lo);
    ScaleAt(p, x, y, kb * 2 + half, l, i, row);
  }

  lemma ScaleAt(p: Problem, x: seq<real>, y: seq<real>, kg: nat, l: nat, i: nat, row: nat)
    requires HoldsX(p, x, 0, kg) && HoldsX(p, y, 8, kg) && l < 32 && i < 4 && row == l / 4 + (if i < 2 then 0 else 8)
    ensures Loads(p, row) ==> (if i < 2 then x[l] else y[l]) == p.aScale(row, kg)
  {
  }

  lemma StepElement(p: Problem, w: Weights, nb: nat, kb: nat, half: nat, tile: nat,
                    a: AFrag, d: seq<seq<Word<bv8>>>, sfb: seq<bv8>, dot: Matrix<int -> real>,
                    acc: real, m: real, row: nat, col: nat, lo: nat)
    requires StepHolds(p, w, nb, kb, half, tile, a, d, sfb) && row < 16 && col < 8 && lo <= (kb * 2 + half) * 32
    requires DotIs(dot, p, a, d, tile * 4 + half * 2, sfb)
    requires (row < 8 || p.mc == 4 ==> acc == 0.0)
      && m == Partial(p, w, row, nb * 16 + tile * 8 + col, lo, (kb * 2 + half) * 32)
    ensures if Loads(p, row) then
        m + (acc + Sum(dot(row, col), 0, 32)) * p.aScale(row, kb * 2 + half)
          == Partial(p, w, row, nb * 16 + tile * 8 + col, lo, (kb * 2 + half) * 32 + 32)
      else Sum(dot(row, col), 0, 32) == 0.0
  {
    var f, g, x := dot(row, col), w.term(row, nb * 16 + tile * 8 + col), p.aScale(row, kb * 2 + half);
    forall i | 0 <= i < 32
      ensures if Loads(p, row) then g((kb * 2 + half) * 32 + i) == f(i) * x else f(i) == 0.0
    {
      StepPoint(p, w, nb, kb, half, tile, a, d, sfb, dot, row, col, i);
    }
    if Loads(p, row) {
      FoldSum(f, g, x, acc, m, lo, (kb * 2 + half) * 32);
    } else {
      SumZero(f, 0, 32);
    }
  }

  /** What the tensor core multiplies at k is the product's term at 32 kg + k, up to the A scale folded afterwards. */
  lemma StepPoint(p: Problem, w: Weights, nb: nat, kb: nat, half: nat, tile: nat,
                  a: AFrag, d: seq<seq<Word<bv8>>>, sfb: seq<bv8>, dot: Matrix<int -> real>, row: nat, col: nat, k: nat)
    requires StepHolds(p, w, nb, kb, half, tile, a, d, sfb) && row < 16 && col < 8 && k < 32
    requires DotIs(dot, p, a, d, tile * 4 + half * 2, sfb)
    ensures if Loads(p, row) then
        w.term(row, nb * 16 + tile * 8 + col)((kb * 2 + half) * 32 + k) == dot(row, col)(k) * p.aScale(row, kb * 2 + half)
      else dot(row, col)(k) == 0.0
  {
    var kg, n := kb * 2 + half, nb * 16 + tile * 8 + col;
    var av, bv, sv := StepFactors(p, w, nb, kb, half, tile, a, d, sfb, row, col, k);
    var q := DotEntry(p, a, d, tile * 4 + half * 2, sfb, dot, row, col, k, av, bv, sv);
    if Loads(p, row) {
      var t := TermEntry(p, w, row, n, kg, k, av, p.aScale(row, kg), bv, sv);
      ProductOrder(t, q, av, p.aScale(row, kg), bv, sv);
    }
  }

  lemma TermEntry(p: Problem, w: Weights, r: int, n: int, kg: nat, k: nat, av: real, x: real, bv: real, sv: real) returns (t: real)
    requires p.Valid() && w.Packed(p) && k < 32
    requires av == p.fp8(p.a(r, kg * 32 + k)) && x == p.aScale(r, kg)
    requires bv == Level(w.codes(n, kg * 32 + k)) && sv == p.ue8m0(w.scales(n, kg))
    ensures t == w.term(r, n)(kg * 32 + k) && t == av * x * bv * sv
  {
    assert (kg * 32 + k) / 32 == kg;
    assert Entry(r, n, kg * 32 + k);
    t := av * x * bv * sv;
  }

  lemma DotEntry(p: Problem, a: AFrag, d: seq<seq<Word<bv8>>>, first: int, sfb: seq<bv8>, dot: Matrix<int -> real>,
                 row: nat, col: nat, k: nat, av: real, bv: real, sv: real) returns (q: real)
    requires IsFrag(a) && Decoded(d) && 0 <= first < 7 && |sfb| == 32 && row < 16 && col < 8 && k < 32
    requires DotIs(dot, p, a, d, first, sfb)
    requires av == p.fp8(AAt(a, row, k)) && bv == p.fp8(BAt(d, first, col, k)) && sv == p.ue8m0(sfb[col * 4])
    ensures q == dot(row, col)(k) && q == av * bv * sv
  {
    assert Entry(row, col, k);
    q := av * bv * sv;
  }

  lemma ProductOrder(t: real, q: real, a: real, x: real, l: real, s: real)
    requires t == a * x * l * s && q == a * l * s
    ensures t == q * x
  {
  }

  const ZERO_WORDS: seq<Word<bv8>> := seq(32, i => Word(0, 0, 0, 0))
  const ZERO_QUADS: Quads := seq(32, i => Word(0.0, 0.0, 0.0, 0.0))

  /** The registers a warp carries from one k64 block to the next. */
  datatype Regs = Regs(fa: AFrag, fb: AFrag, xa: seq<real>, xb: seq<real>, ya: seq<real>, yb: seq<real>,
                       acc0: Quads, acc1: Quads, m0: Quads, m1: Quads)

  /** Unloaded registers are zero, accumulators are reset, masters hold the sums over [lo, hi). */
  ghost predicate Marched(p: Problem, w: Weights, nb: nat, r: Regs, lo: int, hi: int) {
    && PadZero(p, r.fa) && PadZero(p, r.fb)
    && |r.xa| == 32 && |r.xb| == 32 && |r.ya| == 32 && |r.yb| == 32
    && Reset(p.mc, r.acc0) && Reset(p.mc, r.acc1)
    && Masters(p, w, nb, 0, r.m0, lo, hi) && Masters(p, w, nb, 1, r.m1, lo, hi)
  }

  /** The A scale registers of one k32 group; the row g + 8 pair is loaded with MC = 4 only. */
  method LoadX(p: Problem, x: seq<real>, y: seq<real>, kg: nat) returns (x': seq<real>, y': seq<real>)
    requires p.Valid() && |x| == 32 && |y| == 32 && kg < p.KGroups()
    ensures HoldsX(p, x', 0, kg) && HoldsX(p, y', 8, kg)
  {
    x' := LoadAScale(p, x, 0, kg);
    y' := y;
    if p.mc == 4 {
      y' := LoadAScale(p, y, 8, kg);
    }
  }

  /** The k32 half of a block: both tiles through the tensor core and the fold. */
  method StepHalf(p: Problem, ghost w: Weights, nb: nat, kb: nat, half: nat, f: AFrag, d: seq<seq<Word<bv8>>>,
                  x: seq<real>, y: seq<real>, acc0: Quads, acc1: Quads, m0: Quads, m1: Quads, ghost lo: nat)
    returns (acc0': Quads, acc1': Quads, m0': Quads, m1': Quads)
    requires p.Valid() && w.Packed(p) && nb < p.nblocks && kb < p.KBlocks() && half < 2 && lo <= (kb * 2 + half) * 32
    requires HoldsA(p, f, (kb * 2 + half) * 32) && HoldsB(d, w.codes, nb, kb)
    requires HoldsX(p, x, 0, kb * 2 + half) && HoldsX(p, y, 8, kb * 2 + half)
    requires Reset(p.mc, acc0) && Reset(p.mc, acc1)
    requires Masters(p, w, nb, 0, m0, lo, (kb * 2 + half) * 32) && Masters(p, w, nb, 1, m1, lo, (kb * 2 + half) * 32)
    ensures Reset(p.mc, acc0') && Reset(p.mc, acc1')
    ensures Masters(p, w, nb, 0, m0', lo, (kb * 2 + half) * 32 + 32) && Masters(p, w, nb, 1, m1', lo, (kb * 2 + half) * 32 + 32)
  {
    var s0 := LoadScales(p, w, nb, kb * 2 + half, 0);
    var s1 := LoadScales(p, w, nb, kb * 2 + half, 1);
    acc0', m0' := StepTile(p, w, nb, kb, half, 0, f, d, s0, x, y, acc0, m0, lo);
    acc1', m1' := StepTile(p, w, nb, kb, half, 1, f, d, s1, x, y, acc1, m1, lo);
  }

  /** Everything a block's two halves read is loaded and decoded. */
  ghost predicate Ready(p: Problem, w: Weights, nb: nat, kb: nat, r: Regs, d: seq<seq<Word<bv8>>>) {
    && HoldsA(p, r.fa, (kb * 2 + 0) * 32) && HoldsA(p, r.fb, (kb * 2 + 1) * 32) && HoldsB(d, w.codes, nb, kb)
    && HoldsX(p, r.xa, 0, kb * 2 + 0) && HoldsX(p, r.ya, 8, kb * 2 + 0)
    && HoldsX(p, r.xb, 0, kb * 2 + 1) && HoldsX(p, r.yb, 8, kb * 2 + 1)
  }

  /** The loads and the decode of one k64 block. */
  method LoadK64(p: Problem, ghost w: Weights, nb: nat, kb: nat, r: Regs, ghost lo: nat)
    returns (r': Regs, d: seq<seq<Word<bv8>>>)
    requires p.Valid() && w.Packed(p) && nb < p.nblocks && kb < p.KBlocks() && Marched(p, w, nb, r, lo, kb * 64)
    ensures Marched(p, w, nb, r', lo, kb * 64) && Ready(p, w, nb, kb, r', d)
  {
    var xa, ya := LoadX(p, r.xa, r.ya, kb * 2 + 0);
    var xb, yb := LoadX(p, r.xb, r.yb, kb * 2 + 1);
    d := DecodeBlock(p, w, nb, kb);
    var fa := LoadA(p, r.fa, (kb * 2 + 0) * 32);
    var fb := LoadA(p, r.fb, (kb * 2 + 1) * 32);
    r' := r.(fa := fa, fb := fb, xa := xa, xb := xb, ya := ya, yb := yb);
  }

  /** emit_k64: loads and decode, then the two k32 halves. */
  method K64(p: Problem, ghost w: Weights, nb: nat, kb: nat, r: Regs, ghost lo: nat) returns (r': Regs)
    requires p.Valid() && w.Packed(p) && nb < p.nblocks && kb < p.KBlocks() && lo <= kb * 64
    requires Marched(p, w, nb, r, lo, kb * 64)
    ensures Marched(p, w, nb, r', lo, kb * 64 + 64)
  {
    var q, d := LoadK64(p, w, nb, kb, r, lo);
    var acc0, acc1, m0, m1 := StepHalf(p, w, nb, kb, 0, q.fa, d, q.xa, q.ya, q.acc0, q.acc1, q.m0, q.m1, lo);
    acc0, acc1, m0, m1 := StepHalf(p, w, nb, kb, 1, q.fb, d, q.xb, q.yb, acc0, acc1, m0, m1, lo);
    r' := q.(acc0 := acc0, acc1 := acc1, m0 := m0, m1 := m1);
  }

  /** A warp's slice lies inside K. */
  lemma SliceBound(p: Problem, wid: nat)
    requires p.Valid() && wid < p.nwarp
    ensures (wid + 1) * p.slice128 <= p.kb128
  {
    assert (wid + 1) * p.slice128 <= p.nwarp * p.slice128;
  }

  lemma ZeroFrag(p: Problem, f: AFrag)
    requires f == [ZERO_WORDS, ZERO_WORDS, ZERO_WORDS, ZERO_WORDS]
    ensures PadZero(p, f)
  {
    forall row, k | 0 <= row < 16 && 0 <= k < 32
      ensures AAt(f, row, k) == 0
    {
      assert f[row / 8 + k / 16 * 2] == ZERO_WORDS;
    }
  }

  /** The prologue's register contents. */
  method ZeroRegs(p: Problem, ghost w: Weights, nb: nat, ghost lo: nat) returns (r: Regs)
    ensures Marched(p, w, nb, r, lo, lo)
  {
    var zero: AFrag := [ZERO_WORDS, ZERO_WORDS, ZERO_WORDS, ZERO_WORDS];
    ZeroFrag(p, zero);
    var x: seq<real> := seq(32, i => 0.0);
    r := Regs(zero, zero, x, x, x, x, ZERO_QUADS, ZERO_QUADS, ZERO_QUADS, ZERO_QUADS);
  }

  /** One warp's K march over its slice of KSLICE columns. */
  method MarchWarp(p: Problem, ghost w: Weights, nb: nat, wid: nat) returns (m0: Quads, m1: Quads)
    requires p.Valid() && w.Packed(p) && nb < p.nblocks && wid < p.nwarp
    ensures Masters(p, w, nb, 0, m0, wid * p.KSlice(), (wid + 1) * p.KSlice())
    ensures Masters(p, w, nb, 1, m1, wid * p.KSlice(), (wid + 1) * p.KSlice())
  {
    ghost var lo := wid * p.KSlice();
    SliceBound(p, wid);
    var first := wid * p.slice128 * 2;
    assert lo == first * 64;
    var r := ZeroRegs(p, w, nb, lo);
    for j := 0 to 2 * p.slice128
      invariant Marched(p, w, nb, r, lo, (first + j) * 64)
    {
      r := K64(p, w, nb, first + j, r, lo);
    }
    assert (first + 2 * p.slice128) * 64 == (wid + 1) * p.KSlice();
    m0, m1 := r.m0, r.m1;
  }
}
