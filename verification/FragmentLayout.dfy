/** The fragment-major plane layout shared by the 2-bit base plane, the quintal plane and the kernels' addresses.

    A weight matrix [N, K] is viewed as [N/16, 2, 8, K/64, 2, 2, 4, 4], that is row = 16 nb + 8 tile + g and
    column = 64 kb + 32 half + 16 lohi + 4 t + j, and permuted to (nb, kb, g, t, tile, half, lohi, j). Four consecutive
    elements (j) make one word; the eight words (tile, half, lohi) of a lane 4 g + t are its chunk of a (nb, kb) block. */
module FragmentLayout {
  import opened Arithmetic
  import opened Sass

  /** A tensor read by row and column; only indices inside its shape are ever read. */
  type Matrix<!T> = (int, int) -> T

  /** Matrix row of word w (= 4 tile + 2 half + lohi) of a lane in n-block nb. */
  function WordRow(nb: int, lane: int, w: int): int { nb * 16 + w / 4 * 8 + lane / 4 }

  /** Matrix column of element j of word w of a lane in k-block kb. */
  function WordCol(kb: int, lane: int, w: int, j: int): int {
    kb * 64 + w / 2 % 2 * 32 + w % 2 * 16 + lane % 4 * 4 + j
  }

  /** Index of a lane's chunk: the lanes of a block are consecutive, the blocks of a row of blocks too. */
  function ChunkIndex(kblocks: nat, nb: nat, kb: nat, lane: nat): nat { (nb * kblocks + kb) * 32 + lane }

  /** A chunk index determines its block and lane. */
  lemma ChunkDigits(kblocks: nat, nb: nat, kb: nat, lane: nat)
    requires kb < kblocks && lane < 32
    ensures ChunkIndex(kblocks, nb, kb, lane) % 32 == lane
    ensures ChunkIndex(kblocks, nb, kb, lane) / 32 / kblocks == nb
    ensures ChunkIndex(kblocks, nb, kb, lane) / 32 % kblocks == kb
  {
    DivModUnique(ChunkIndex(kblocks, nb, kb, lane), 32, nb * kblocks + kb, lane);
    DivModUnique(nb * kblocks + kb, kblocks, nb, kb);
  }

  lemma ChunkBound(nblocks: nat, kblocks: nat, nb: nat, kb: nat, lane: nat)
    requires nb < nblocks && kb < kblocks && lane < 32
    ensures ChunkIndex(kblocks, nb, kb, lane) < nblocks * kblocks * 32
  {
    assert (nb + 1) * kblocks <= nblocks * kblocks;
    assert nb * kblocks + kb + 1 <= nblocks * kblocks;
  }

  datatype Word<T> = Word(e0: T, e1: T, e2: T, e3: T) {
    function At(j: int): T
      requires 0 <= j < 4
    {
      if j == 0 then e0 else if j == 1 then e1 else if j == 2 then e2 else e3
    }
  }

  /** Word w of the chunk with the given index, read from the unpacked matrix. */
  function ChunkWord<T>(m: Matrix<T>, kblocks: nat, chunk: nat, w: int): Word<T>
    requires kblocks > 0
  {
    var lane := chunk % 32;
    var nb := chunk / 32 / kblocks;
    var kb := chunk / 32 % kblocks;
    Word(m(WordRow(nb, lane, w), WordCol(kb, lane, w, 0)), m(WordRow(nb, lane, w), WordCol(kb, lane, w, 1)),
         m(WordRow(nb, lane, w), WordCol(kb, lane, w, 2)), m(WordRow(nb, lane, w), WordCol(kb, lane, w, 3)))
  }

  /** The permuted matrix as a list of words (view(-1, 4) of the contiguous permutation). */
  function Words<T>(m: Matrix<T>, nblocks: nat, kblocks: nat): (words: seq<Word<T>>)
    requires kblocks > 0
    ensures |words| == nblocks * kblocks * 256
  {
    seq(nblocks * kblocks * 256, i requires i >= 0 => ChunkWord(m, kblocks, i / 8, i % 8))
  }

  /** The word at the index the kernel computes for (block, lane, word) is that word of the matrix:
      the address arithmetic inverts the view/permute of the packer. */
  lemma WordAt<T>(m: Matrix<T>, nblocks: nat, kblocks: nat, nb: nat, kb: nat, lane: nat, w: nat)
    requires nb < nblocks && kb < kblocks && lane < 32 && w < 8
    ensures ChunkIndex(kblocks, nb, kb, lane) * 8 + w < |Words(m, nblocks, kblocks)|
    ensures forall j :: 0 <= j < 4 ==>
      Words(m, nblocks, kblocks)[ChunkIndex(kblocks, nb, kb, lane) * 8 + w].At(j)
        == m(WordRow(nb, lane, w), WordCol(kb, lane, w, j))
  {
    var i := ChunkIndex(kblocks, nb, kb, lane) * 8 + w;
    ChunkBound(nblocks, kblocks, nb, kb, lane);
    ChunkDigits(kblocks, nb, kb, lane);
    assert i / 8 == ChunkIndex(kblocks, nb, kb, lane) && i % 8 == w;
    assert Words(m, nblocks, kblocks)[i] == ChunkWord(m, kblocks, i / 8, i % 8);
  }

  /** One packed byte: four 2-bit codes, lowest column first. */
  function PackByte(c: Word<bv8>): bv8 { c.e0 | (c.e1 << 2) | (c.e2 << 4) | (c.e3 << 6) }

  lemma PackByteFields(c: Word<bv8>)
    requires c.e0 < 4 && c.e1 < 4 && c.e2 < 4 && c.e3 < 4
    ensures Field(PackByte(c), 0) == c.e0 && Field(PackByte(c), 1) == c.e1
    ensures Field(PackByte(c), 2) == c.e2 && Field(PackByte(c), 3) == c.e3
  {
  }

  ghost predicate TwoBit(codes: Matrix<bv8>) { forall r, c :: codes(r, c) < 4 }

  /** The packed plane: byte 8 chunk + w holds word w of that chunk. */
  function PackFragmentMajor(codes: Matrix<bv8>, nblocks: nat, kblocks: nat): (plane: seq<bv8>)
    requires kblocks > 0
    ensures |plane| == nblocks * kblocks * 256
  {
    var words := Words(codes, nblocks, kblocks);
    seq(|words|, i requires 0 <= i < |words| => PackByte(words[i]))
  }

  /** The byte the kernel addresses for (block, lane, word) carries exactly the four codes of that word. */
  lemma PackedFields(codes: Matrix<bv8>, nblocks: nat, kblocks: nat, nb: nat, kb: nat, lane: nat, w: nat)
    requires nb < nblocks && kb < kblocks && lane < 32 && w < 8 && TwoBit(codes)
    ensures ChunkIndex(kblocks, nb, kb, lane) * 8 + w < |PackFragmentMajor(codes, nblocks, kblocks)|
    ensures var b := PackFragmentMajor(codes, nblocks, kblocks)[ChunkIndex(kblocks, nb, kb, lane) * 8 + w];
      forall j :: 0 <= j < 4 ==> Field(b, j) == codes(WordRow(nb, lane, w), WordCol(kb, lane, w, j))
  {
    var words := Words(codes, nblocks, kblocks);
    var i := ChunkIndex(kblocks, nb, kb, lane) * 8 + w;
    WordAt(codes, nblocks, kblocks, nb, kb, lane, w);
    assert words[i].At(0) == words[i].e0 && words[i].At(1) == words[i].e1;
    assert words[i].At(2) == words[i].e2 && words[i].At(3) == words[i].e3;
    PackByteFields(words[i]);
  }
}
