/** The radix-5 split-FP4 codec: a 2-bit base plane and a plane of 80-bit quintal records, and the kernel's decode. */
module MoeW4qCodec {
  import opened Arithmetic
  import opened Sass
  import opened FragmentLayout

  // ------------------------------------------------------------------ what a nibble means

  /** Magnitudes of an e2m1 nibble; bit 3 is the sign. */
  function E2m1(nib: bv8): real {
    var m := nib & 7;
    var v := if m == 0 then 0.0 else if m == 1 then 0.5 else if m == 2 then 1.0 else if m == 3 then 1.5
             else if m == 4 then 2.0 else if m == 5 then 3.0 else if m == 6 then 4.0 else 6.0;
    if nib & 8 != 0 then -v else v
  }

  /** The e4m3 byte the decode must deliver, negative zero kept apart from zero. */
  function E4m3Byte(nib: bv8): bv8 {
    var m := nib & 7;
    var b: bv8 := if m == 0 then 0x00 else if m == 1 then 0x30 else if m == 2 then 0x38 else if m == 3 then 0x3c
             else if m == 4 then 0x40 else if m == 5 then 0x44 else if m == 6 then 0x48 else 0x4c;
    b | ((nib & 8) << 4)
  }

  lemma SmallPowers()
    ensures Pow2(-4) == 0.0625 && Pow2(-3) == 0.125 && Pow2(-2) == 0.25 && Pow2(-1) == 0.5
  {
    assert Pow2(0) == 1.0;
    assert Pow2(-1) == 0.5;
    assert Pow2(-2) == 0.25;
    assert Pow2(-3) == 0.125;
  }

  // ------------------------------------------------------------------ the packer

  /** NIBBLE_TO_CODE. */
  function Code(nib: bv8): bv8 {
    if nib < 5 then 2 else if nib < 8 then 3 else if nib < 13 then 1 else 0
  }

  lemma CodeRange(nib: bv8)
    ensures Code(nib) < 4
  {
  }

  predicate Big(code: bv8) { code == 0 || code == 3 }

  /** The refinement digit: the magnitude, less 5 when the code already says it is one of the big three. */
  function Digit(nib: bv8): bv32 {
    var mag := (nib & 7) as bv32;
    if Big(Code(nib)) then mag - 5 else mag
  }

  /** Digit and code determine the magnitude, and the code the sign. */
  lemma DigitRange(nib: bv8)
    requires nib < 16
    ensures Code(nib) < 4 && Digit(nib) < 5
    ensures Digit(nib) + (if Big(Code(nib)) then 5 else 0) == (nib & 7) as bv32
    ensures (nib & 8 != 0) <==> Code(nib) < 2
  {
  }

  /** Four digits make one base-5 word below 625. */
  function Base5(d0: bv32, d1: bv32, d2: bv32, d3: bv32): bv32 { d0 + 5 * d1 + 25 * d2 + 125 * d3 }

  function Word5(n: Word<bv8>): bv32 { Base5(Digit(n.e0), Digit(n.e1), Digit(n.e2), Digit(n.e3)) }

  /** The shifts of the spill loop, whose offsets are even and below 16, and its OR. */
  function Shl(x: bv32, n: nat): bv32 {
    if n == 0 then x else if n == 2 then x << 2 else if n == 4 then x << 4 else if n == 6 then x << 6 else if n == 8 then x << 8
    else if n == 10 then x << 10 else if n == 12 then x << 12 else if n == 14 then x << 14 else 0
  }

  function Shr(x: bv32, n: nat): bv32 {
    if n == 2 then x >> 2 else if n == 4 then x >> 4 else if n == 6 then x >> 6 else if n == 8 then x >> 8 else 0
  }

  /** The three operations as values: the loop's proof must not look inside them. */
  datatype BitOps<!T> = BitOps(or: (T, T) -> T, shl: (T, nat) -> T, shr: (T, nat) -> T) {
    function OrIf(x: T, c: bool, y: T): T { if c then or(x, y) else x }

    /** The five 16-bit limbs of an 80-bit little-endian stream after its first n 10-bit words, before the final mask. */
    function Limbs(zero: T, v: seq<T>, n: int): (s: seq<T>)
      requires |v| == 8
      ensures |s| == 5
    {
      [OrIf(OrIf(zero, n > 0, shl(v[0], 0)), n > 1, shl(v[1], 10)),
       OrIf(OrIf(OrIf(zero, n > 1, shr(v[1], 6)), n > 2, shl(v[2], 4)), n > 3, shl(v[3], 14)),
       OrIf(OrIf(zero, n > 3, shr(v[3], 2)), n > 4, shl(v[4], 8)),
       OrIf(OrIf(OrIf(zero, n > 4, shr(v[4], 8)), n > 5, shl(v[5], 2)), n > 6, shl(v[6], 12)),
       OrIf(OrIf(zero, n > 6, shr(v[6], 4)), n > 7, shl(v[7], 6))]
    }

    /** The limbs of the whole stream. */
    lemma AllLimbs(zero: T, v: seq<T>)
      requires |v| == 8
      ensures Limbs(zero, v, 8) ==
        [or(or(zero, shl(v[0], 0)), shl(v[1], 10)), or(or(or(zero, shr(v[1], 6)), shl(v[2], 4)), shl(v[3], 14)),
         or(or(zero, shr(v[3], 2)), shl(v[4], 8)), or(or(or(zero, shr(v[4], 8)), shl(v[5], 2)), shl(v[6], 12)),
         or(or(zero, shr(v[6], 4)), shl(v[7], 6))]
    {
    }

    /** The spill loop: each word is shifted into its short, and its top bits into the next when it crosses 16 bits. */
    method PackShorts(zero: T, words: seq<T>) returns (shorts: seq<T>)
      requires |words| == 8
      ensures shorts == Limbs(zero, words, 8)
    {
      shorts := [zero, zero, zero, zero, zero];
      for w := 0 to 8
        invariant shorts == Limbs(zero, words, w)
      {
        var b := 10 * w;
        var s, off := b / 16, b % 16;
        shorts := shorts[s := or(shorts[s], shl(words[w], off))];
        if off > 6 {
          shorts := shorts[s + 1 := or(shorts[s + 1], shr(words[w], 16 - off))];
        }
      }
    }
  }

  function Or(x: bv32, y: bv32): bv32 { x | y }

  /** The five shorts of a record, two or three words each. */
  function Short0(x: bv32, y: bv32): bv32 { (0 | x) | (y << 10) }
  function Short1(x: bv32, y: bv32, z: bv32): bv32 { ((0 | (x >> 6)) | (y << 4)) | (z << 14) }
  function Short2(x: bv32, y: bv32): bv32 { (0 | (x >> 2)) | (y << 8) }
  function Short3(x: bv32, y: bv32, z: bv32): bv32 { ((0 | (x >> 8)) | (y << 2)) | (z << 12) }
  function Short4(x: bv32, y: bv32): bv32 { (0 | (x >> 4)) | (y << 6) }

  /** Low and high byte of a short after its mask. */
  function LowByte(x: bv32): bv8 { (x & 0xff) as bv8 }
  function HighByte(x: bv32): bv8 { ((x >> 8) & 0xff) as bv8 }

  function ShortBytes(s0: bv32, s1: bv32, s2: bv32, s3: bv32, s4: bv32): (r: seq<bv8>)
    ensures |r| == 10
  {
    [LowByte(s0), HighByte(s0), LowByte(s1), HighByte(s1), LowByte(s2), HighByte(s2),
     LowByte(s3), HighByte(s3), LowByte(s4), HighByte(s4)]
  }

  /** The ten bytes of a record. */
  function Record(v: seq<bv32>): (r: seq<bv8>)
    requires |v| == 8
    ensures |r| == 10
  {
    ShortBytes(Short0(v[0], v[1]), Short1(v[1], v[2], v[3]), Short2(v[3], v[4]), Short3(v[4], v[5], v[6]), Short4(v[6], v[7]))
  }

  lemma Short0Is(or: (bv32, bv32) -> bv32, shl: (bv32, nat) -> bv32, x: bv32, y: bv32)
    requires or == Or && shl == Shl
    ensures or(or(0, shl(x, 0)), shl(y, 10)) == Short0(x, y)
  {
  }

  lemma Short1Is(or: (bv32, bv32) -> bv32, shl: (bv32, nat) -> bv32, shr: (bv32, nat) -> bv32, x: bv32, y: bv32, z: bv32)
    requires or == Or && shl == Shl && shr == Shr
    ensures or(or(or(0, shr(x, 6)), shl(y, 4)), shl(z, 14)) == Short1(x, y, z)
  {
  }

  lemma Short2Is(or: (bv32, bv32) -> bv32, shl: (bv32, nat) -> bv32, shr: (bv32, nat) -> bv32, x: bv32, y: bv32)
    requires or == Or && shl == Shl && shr == Shr
    ensures or(or(0, shr(x, 2)), shl(y, 8)) == Short2(x, y)
  {
  }

  lemma Short3Is(or: (bv32, bv32) -> bv32, shl: (bv32, nat) -> bv32, shr: (bv32, nat) -> bv32, x: bv32, y: bv32, z: bv32)
    requires or == Or && shl == Shl && shr == Shr
    ensures or(or(or(0, shr(x, 8)), shl(y, 2)), shl(z, 12)) == Short3(x, y, z)
  {
  }

  lemma Short4Is(or: (bv32, bv32) -> bv32, shl: (bv32, nat) -> bv32, shr: (bv32, nat) -> bv32, x: bv32, y: bv32)
    requires or == Or && shl == Shl && shr == Shr
    ensures or(or(0, shr(x, 4)), shl(y, 6)) == Short4(x, y)
  {
  }

  lemma MaskedBytes(x: bv32)
    ensures (x & 0xffff) >> 8 <= 0xff && LowByte(x & 0xffff) == LowByte(x) && ((x & 0xffff) >> 8) as bv8 == HighByte(x)
  {
  }

  /** shorts &= 0xFFFF and the low byte of one short. */
  method SplitShort(x: bv32) returns (lo: bv8, hi: bv8)
    ensures lo == LowByte(x) && hi == HighByte(x)
  {
    MaskedBytes(x);
    lo, hi := LowByte(x & 0xffff), ((x & 0xffff) >> 8) as bv8;
  }

  method SplitShorts(s0: bv32, s1: bv32, s2: bv32, s3: bv32, s4: bv32) returns (r: seq<bv8>)
    ensures r == ShortBytes(s0, s1, s2, s3, s4)
  {
    var l0, h0 := SplitShort(s0);
    var l1, h1 := SplitShort(s1);
    var l2, h2 := SplitShort(s2);
    var l3, h3 := SplitShort(s3);
    var l4, h4 := SplitShort(s4);
    r := [l0, h0, l1, h1, l2, h2, l3, h3, l4, h4];
  }

  /** The record of one lane's eight words. */
  method PackRecord(v: seq<bv32>) returns (r: seq<bv8>)
    requires |v| == 8
    ensures r == Record(v)
  {
    var or: (bv32, bv32) -> bv32, shl: (bv32, nat) -> bv32, shr: (bv32, nat) -> bv32 := Or, Shl, Shr;
    var ops := BitOps(or, shl, shr);
    var s := ops.PackShorts(0, v);
    ops.AllLimbs(0, v);
    Short0Is(or, shl, v[0], v[1]);
    Short1Is(or, shl, shr, v[1], v[2], v[3]);
    Short2Is(or, shl, shr, v[3], v[4]);
    Short3Is(or, shl, shr, v[4], v[5], v[6]);
    Short4Is(or, shl, shr, v[6], v[7]);
    r := SplitShorts(s[0], s[1], s[2], s[3], s[4]);
  }

  // ------------------------------------------------------------------ the kernel's record words

  predicate Tens(v: seq<bv32>) {
    |v| == 8 && v[0] < 1024 && v[1] < 1024 && v[2] < 1024 && v[3] < 1024 && v[4] < 1024 && v[5] < 1024 && v[6] < 1024 && v[7] < 1024
  }

  /** Two shorts in a register. */
  function Pair(x: bv32, y: bv32): bv32 { (x & 0xffff) | (y << 16) }

  /** LDG.E of the bytes of two shorts. */
  lemma LoadedPair(x: bv32, y: bv32)
    ensures Load32(LowByte(x), HighByte(x), LowByte(y), HighByte(y)) == Pair(x, y)
  {
  }

  /** emit_extract10: inside a register, or by a funnel of two. */
  function Extract10(r12: bv32, r13: bv32, r16: bv32, w: nat): bv32
    requires w < 8
  {
    if w == 0 then r12 & 0x3ff
    else if w == 1 then (r12 >> 10) & 0x3ff
    else if w == 2 then (r12 >> 20) & 0x3ff
    else if w == 3 then ((r12 >> 30) | (r13 << 2)) & 0x3ff
    else if w == 4 then (r13 >> 8) & 0x3ff
    else if w == 5 then (r13 >> 18) & 0x3ff
    else if w == 6 then ((r13 >> 28) | (r16 << 4)) & 0x3ff
    else (r16 >> 6) & 0x3ff
  }

  /** A word below 1024 survives its place in the registers, whatever its neighbours are; words 3 and 6 cross two. */
  lemma Extract0(a: bv32, b: bv32, c: bv32, d: bv32)
    requires a < 1024 && b < 1024
    ensures Pair(Short0(a, b), Short1(b, c, d)) & 0x3ff == a
  {
  }

  lemma Extract1(a: bv32, b: bv32, c: bv32, d: bv32)
    requires a < 1024 && b < 1024 && c < 1024
    ensures (Pair(Short0(a, b), Short1(b, c, d)) >> 10) & 0x3ff == b
  {
  }

  lemma Extract2(a: bv32, b: bv32, c: bv32, d: bv32)
    requires b < 1024 && c < 1024 && d < 1024
    ensures (Pair(Short0(a, b), Short1(b, c, d)) >> 20) & 0x3ff == c
  {
  }

  lemma Extract3(a: bv32, b: bv32, c: bv32, d: bv32, e: bv32, f: bv32, g: bv32)
    requires b < 1024 && c < 1024 && d < 1024 && e < 1024
    ensures ((Pair(Short0(a, b), Short1(b, c, d)) >> 30) | (Pair(Short2(d, e), Short3(e, f, g)) << 2)) & 0x3ff == d
  {
  }

  lemma Extract4(d: bv32, e: bv32, f: bv32, g: bv32)
    requires d < 1024 && e < 1024 && f < 1024
    ensures (Pair(Short2(d, e), Short3(e, f, g)) >> 8) & 0x3ff == e
  {
  }

  lemma Extract5(d: bv32, e: bv32, f: bv32, g: bv32)
    requires e < 1024 && f < 1024 && g < 1024
    ensures (Pair(Short2(d, e), Short3(e, f, g)) >> 18) & 0x3ff == f
  {
  }

  lemma Extract6(d: bv32, e: bv32, f: bv32, g: bv32, h: bv32)
    requires e < 1024 && f < 1024 && g < 1024 && h < 1024
    ensures ((Pair(Short2(d, e), Short3(e, f, g)) >> 28) | (Pair(Short4(g, h), 0) << 4)) & 0x3ff == g
  {
  }

  lemma Extract7(g: bv32, h: bv32)
    requires g < 1024 && h < 1024
    ensures (Pair(Short4(g, h), 0) >> 6) & 0x3ff == h
  {
  }

  /** Extraction inverts the spill. */
  lemma ExtractsWord(r12: bv32, r13: bv32, r16: bv32, v: seq<bv32>, w: nat)
    requires Tens(v) && w < 8
    requires r12 == Pair(Short0(v[0], v[1]), Short1(v[1], v[2], v[3]))
    requires r13 == Pair(Short2(v[3], v[4]), Short3(v[4], v[5], v[6]))
    requires r16 == Pair(Short4(v[6], v[7]), 0)
    ensures Extract10(r12, r13, r16, w) == v[w]
  {
    if w == 0 {
      Extract0(v[0], v[1], v[2], v[3]);
    } else if w == 1 {
      Extract1(v[0], v[1], v[2], v[3]);
    } else if w == 2 {
      Extract2(v[0], v[1], v[2], v[3]);
    } else if w == 3 {
      Extract3(v[0], v[1], v[2], v[3], v[4], v[5], v[6]);
    } else if w == 4 {
      Extract4(v[3], v[4], v[5], v[6]);
    } else if w == 5 {
      Extract5(v[3], v[4], v[5], v[6]);
    } else if w == 6 {
      Extract6(v[3], v[4], v[5], v[6], v[7]);
    } else {
      Extract7(v[6], v[7]);
    }
  }

  // ------------------------------------------------------------------ digits, selectors, bytes

  function Nibbles(x0: bv32, x1: bv32, x2: bv32, x3: bv32): bv32 { x0 + x1 * 0x10 + x2 * 0x100 + x3 * 0x1000 }

  function Quotient(x: bv32): bv32 { (x * 0x334) >> 12 }
  function Remainder(x: bv32, q: bv32): bv32 { q * 0xfffffffb + x }

  /** Multiply by 0x334 and shift by 12 divides by five below 1024 (a record word is below 625). */
  lemma Div5(d: bv32, q: bv32)
    requires d < 5 && q < 205 && d + 5 * q < 1024
    ensures Quotient(d + 5 * q) == q
  {
  }

  lemma Mod5(d: bv32, q: bv32)
    ensures Remainder(d + 5 * q, q) == d
  {
  }

  /** One digit: quotient by the magic multiply, remainder by IMAD with -5. */
  method DivStep(x: bv32, ghost d: bv32, ghost q: bv32) returns (quot: bv32, rem: bv32)
    requires x == d + 5 * q && d < 5 && q < 204
    ensures quot == q && rem == d
  {
    Div5(d, q);
    Mod5(d, q);
    quot := Quotient(x);
    rem := Remainder(x, quot);
  }

  lemma Horner(d0: bv32, d1: bv32, d2: bv32, d3: bv32)
    ensures Base5(d0, d1, d2, d3) == d0 + 5 * (d1 + 5 * (d2 + 5 * d3))
  {
  }

  lemma QuotientBounds(d1: bv32, d2: bv32, d3: bv32)
    requires d1 < 5 && d2 < 5 && d3 < 5
    ensures d2 + 5 * d3 < 25 && d1 + 5 * (d2 + 5 * d3) < 125
  {
  }

  /** The three divisions: four digits, packed one to a nibble. */
  method Digits(c: bv32, ghost d0: bv32, ghost d1: bv32, ghost d2: bv32, ghost d3: bv32) returns (sel: bv32)
    requires d0 < 5 && d1 < 5 && d2 < 5 && d3 < 5 && c == Base5(d0, d1, d2, d3)
    ensures sel == Nibbles(d0, d1, d2, d3)
  {
    Horner(d0, d1, d2, d3);
    QuotientBounds(d1, d2, d3);
    ghost var y2 := d2 + 5 * d3;
    sel := DigitChain(c, d0, d1, d2, d3, d1 + 5 * y2, y2);
  }

  method DigitChain(c: bv32, ghost d0: bv32, ghost d1: bv32, ghost d2: bv32, ghost d3: bv32, ghost y1: bv32, ghost y2: bv32)
    returns (sel: bv32)
    requires d0 < 5 && d1 < 5 && d2 < 5 && d3 < 5 && y1 < 204 && y2 < 204
    requires c == d0 + 5 * y1 && y1 == d1 + 5 * y2 && y2 == d2 + 5 * d3
    ensures sel == Nibbles(d0, d1, d2, d3)
  {
    var q0, r0 := DivStep(c, d0, y1);
    var q1, r1 := DivStep(q0, d1, y2);
    var q2, r2 := DivStep(q1, d2, d3);
    sel := Nibbles(r0, r1, r2, q2);
  }

  function BigBit(code: bv32): bv32 { if code == 0 || code == 3 then 1 else 0 }

  /** is_big of all four codes at once: bit 0 of a nibble of ~(sel ^ (sel >> 1)). */
  function BigMask(sel: bv32): bv32 { !(sel ^ (sel >> 1)) & 0x1111 }

  /** Adding five to the big digits never carries into the next nibble. */
  lemma NoCarry(d0: bv32, d1: bv32, d2: bv32, d3: bv32, b0: bv32, b1: bv32, b2: bv32, b3: bv32, j: int)
    requires d0 < 5 && d1 < 5 && d2 < 5 && d3 < 5 && b0 < 2 && b1 < 2 && b2 < 2 && b3 < 2 && 0 <= j < 4
    ensures Nibble((b0 + b1 * 0x10 + b2 * 0x100 + b3 * 0x1000) * 0x5 + (d0 + d1 * 0x10 + d2 * 0x100 + d3 * 0x1000), j)
         == (if j == 0 then d0 + 5 * b0 else if j == 1 then d1 + 5 * b1 else if j == 2 then d2 + 5 * b2 else d3 + 5 * b3)
  {
    if j == 0 {} else if j == 1 {} else if j == 2 {} else {}
  }

  /** The magnitude byte ORed with the sign byte, for selector and code of one element. */
  lemma SignedByte(nib: bv8, sel: bv32, code: bv32)
    requires nib < 16 && sel == (nib & 7) as bv32 && code == Code(nib) as bv32
    ensures PrmtByte(0x3c383000, 0x4c484440, sel) | PrmtByte(0x00008080, 0, code) == E4m3Byte(nib)
  {
  }

  predicate IsNibbles(n: Word<bv8>) { n.e0 < 16 && n.e1 < 16 && n.e2 < 16 && n.e3 < 16 }

  /** Facts about a register kept closed: they open only for an index that Open mentions. */
  ghost predicate Open(j: int) { true }

  ghost predicate NibbleIs(r: bv32, j: int, x: bv32) {
    forall k {:trigger Open(k)} :: k == j && 0 <= k < 4 ==> Nibble(r, k) == x
  }

  function CodeBits(nib: bv8): bv32 { Code(nib) as bv32 }

  /** Nibble j of a code word is the code of an element; nibble j of a selector word is its magnitude index. */
  ghost predicate CodeAt(r: bv32, j: int, nib: bv8) {
    forall k {:trigger Open(k)} :: k == j && 0 <= k < 4 ==> Nibble(r, k) == CodeBits(nib)
  }

  ghost predicate MagAt(r: bv32, j: int, nib: bv8) {
    forall k {:trigger Open(k)} :: k == j && 0 <= k < 4 ==> Nibble(r, k) == (nib & 7) as bv32
  }

  ghost predicate CodesOf(selC: bv32, n: Word<bv8>) {
    CodeAt(selC, 0, n.e0) && CodeAt(selC, 1, n.e1) && CodeAt(selC, 2, n.e2) && CodeAt(selC, 3, n.e3)
  }

  /** b is the big bit of code k, kept closed. */
  ghost predicate BitIs(b: bv32, k: bv32) { forall j {:trigger Open(j)} :: j == 0 ==> b == BigBit(k) && k < 4 }

  /** The mask of big codes, by its four bits. */
  lemma BigMaskIs(selC: bv32, k0: bv32, k1: bv32, k2: bv32, k3: bv32, b0: bv32, b1: bv32, b2: bv32, b3: bv32)
    requires NibbleIs(selC, 0, k0) && NibbleIs(selC, 1, k1) && NibbleIs(selC, 2, k2) && NibbleIs(selC, 3, k3)
    requires BitIs(b0, k0) && BitIs(b1, k1) && BitIs(b2, k2) && BitIs(b3, k3)
    ensures BigMask(selC) == Nibbles(b0, b1, b2, b3)
  {
    assert Open(0) && Open(1) && Open(2) && Open(3);
  }

  method MaskBig(selC: bv32, ghost k0: bv32, ghost k1: bv32, ghost k2: bv32, ghost k3: bv32,
                 ghost b0: bv32, ghost b1: bv32, ghost b2: bv32, ghost b3: bv32) returns (m: bv32)
    requires NibbleIs(selC, 0, k0) && NibbleIs(selC, 1, k1) && NibbleIs(selC, 2, k2) && NibbleIs(selC, 3, k3)
    requires BitIs(b0, k0) && BitIs(b1, k1) && BitIs(b2, k2) && BitIs(b3, k3)
    ensures m == Nibbles(b0, b1, b2, b3)
  {
    BigMaskIs(selC, k0, k1, k2, k3, b0, b1, b2, b3);
    m := BigMask(selC);
  }

  /** Five per big bit added to the digits. */
  method AddBig(m: bv32, digits: bv32, ghost d0: bv32, ghost d1: bv32, ghost d2: bv32, ghost d3: bv32,
                ghost b0: bv32, ghost b1: bv32, ghost b2: bv32, ghost b3: bv32) returns (sel: bv32)
    requires d0 < 5 && d1 < 5 && d2 < 5 && d3 < 5 && b0 < 2 && b1 < 2 && b2 < 2 && b3 < 2
    requires m == Nibbles(b0, b1, b2, b3) && digits == Nibbles(d0, d1, d2, d3)
    ensures NibbleIs(sel, 0, d0 + 5 * b0) && NibbleIs(sel, 1, d1 + 5 * b1)
    ensures NibbleIs(sel, 2, d2 + 5 * b2) && NibbleIs(sel, 3, d3 + 5 * b3)
  {
    sel := m * 0x5 + digits;
    SelNibble(sel, d0, d1, d2, d3, b0, b1, b2, b3, 0);
    SelNibble(sel, d0, d1, d2, d3, b0, b1, b2, b3, 1);
    SelNibble(sel, d0, d1, d2, d3, b0, b1, b2, b3, 2);
    SelNibble(sel, d0, d1, d2, d3, b0, b1, b2, b3, 3);
  }

  lemma SelNibble(sel: bv32, d0: bv32, d1: bv32, d2: bv32, d3: bv32, b0: bv32, b1: bv32, b2: bv32, b3: bv32, j: int)
    requires d0 < 5 && d1 < 5 && d2 < 5 && d3 < 5 && b0 < 2 && b1 < 2 && b2 < 2 && b3 < 2 && 0 <= j < 4
    requires sel == Nibbles(b0, b1, b2, b3) * 0x5 + Nibbles(d0, d1, d2, d3)
    ensures NibbleIs(sel, j, if j == 0 then d0 + 5 * b0 else if j == 1 then d1 + 5 * b1 else if j == 2 then d2 + 5 * b2 else d3 + 5 * b3)
  {
    NoCarry(d0, d1, d2, d3, b0, b1, b2, b3, j);
  }

  /** An element's digit d, code k and big bit b, kept closed. */
  ghost predicate ElementIs(nib: bv8, d: bv32, k: bv32, b: bv32) {
    BitIs(b, k) && forall j {:trigger Open(j)} :: j == 0 ==>
      d == Digit(nib) && k == CodeBits(nib) && d < 5 && k < 4 && d + 5 * b == (nib & 7) as bv32
  }

  lemma ElementSum(nib: bv8)
    requires nib < 16
    ensures Digit(nib) < 5 && CodeBits(nib) < 4 && Digit(nib) + 5 * BigBit(CodeBits(nib)) == (nib & 7) as bv32
  {
  }

  lemma SplitElement(nib: bv8) returns (d: bv32, k: bv32, b: bv32)
    requires nib < 16
    ensures d < 5 && k < 4 && b < 2 && ElementIs(nib, d, k, b)
  {
    d, k, b := Digit(nib), CodeBits(nib), BigBit(CodeBits(nib));
    ElementSum(nib);
  }

  lemma WordDigits(c: bv32, n: Word<bv8>, d0: bv32, d1: bv32, d2: bv32, d3: bv32, k0: bv32, k1: bv32, k2: bv32, k3: bv32,
                   b0: bv32, b1: bv32, b2: bv32, b3: bv32)
    requires WordIs(c, n)
    requires ElementIs(n.e0, d0, k0, b0) && ElementIs(n.e1, d1, k1, b1) && ElementIs(n.e2, d2, k2, b2) && ElementIs(n.e3, d3, k3, b3)
    ensures c == Base5(d0, d1, d2, d3)
  {
    assert Open(0);
  }

  lemma CodeNibble(selC: bv32, j: int, nib: bv8, d: bv32, k: bv32, b: bv32)
    requires ElementIs(nib, d, k, b) && CodeAt(selC, j, nib) && 0 <= j < 4
    ensures NibbleIs(selC, j, k)
  {
    assert Open(0);
    assert Open(j);
  }

  lemma MagNibble(sel: bv32, j: int, nib: bv8, d: bv32, k: bv32, b: bv32)
    requires ElementIs(nib, d, k, b) && NibbleIs(sel, j, d + 5 * b) && 0 <= j < 4
    ensures MagAt(sel, j, nib)
  {
    assert Open(0);
    assert Open(j);
  }

  /** Digit selectors plus five per big code. */
  method Selectors(selC: bv32, c: bv32, ghost n: Word<bv8>) returns (sel: bv32)
    requires IsNibbles(n) && CodesOf(selC, n) && WordIs(c, n)
    ensures MagAt(sel, 0, n.e0) && MagAt(sel, 1, n.e1) && MagAt(sel, 2, n.e2) && MagAt(sel, 3, n.e3)
  {
    ghost var d0, k0, b0 := SplitElement(n.e0);
    ghost var d1, k1, b1 := SplitElement(n.e1);
    ghost var d2, k2, b2 := SplitElement(n.e2);
    ghost var d3, k3, b3 := SplitElement(n.e3);
    WordDigits(c, n, d0, d1, d2, d3, k0, k1, k2, k3, b0, b1, b2, b3);
    CodeNibble(selC, 0, n.e0, d0, k0, b0);
    CodeNibble(selC, 1, n.e1, d1, k1, b1);
    CodeNibble(selC, 2, n.e2, d2, k2, b2);
    CodeNibble(selC, 3, n.e3, d3, k3, b3);
    var digits := Digits(c, d0, d1, d2, d3);
    var m := MaskBig(selC, k0, k1, k2, k3, b0, b1, b2, b3);
    sel := AddBig(m, digits, d0, d1, d2, d3, b0, b1, b2, b3);
    MagNibble(sel, 0, n.e0, d0, k0, b0);
    MagNibble(sel, 1, n.e1, d1, k1, b1);
    MagNibble(sel, 2, n.e2, d2, k2, b2);
    MagNibble(sel, 3, n.e3, d3, k3, b3);
  }

  /** One byte of the two PRMTs and the OR. */
  lemma DecodedByte(sel: bv32, selC: bv32, j: int, nib: bv8, mag: bv8, sign: bv8)
    requires nib < 16 && 0 <= j < 4 && MagAt(sel, j, nib) && CodeAt(selC, j, nib)
    requires mag == PrmtByte(0x3c383000, 0x4c484440, Nibble(sel, j)) && sign == PrmtByte(0x00008080, 0, Nibble(selC, j))
    ensures mag | sign == E4m3Byte(nib)
  {
    assert Open(j);
    SignedByte(nib, Nibble(sel, j), Nibble(selC, j));
  }

  /** emit_word after the spread: selectors, the two PRMTs and the OR of the signs. */
  method DecodeWord(selC: bv32, c: bv32, ghost n: Word<bv8>) returns (out: Word<bv8>)
    requires IsNibbles(n) && CodesOf(selC, n) && WordIs(c, n)
    ensures out == Word(E4m3Byte(n.e0), E4m3Byte(n.e1), E4m3Byte(n.e2), E4m3Byte(n.e3))
  {
    var sel := Selectors(selC, c, n);
    var mag := Prmt(0x3c383000, sel, 0x4c484440);
    var sign := Prmt(0x00008080, selC, 0);
    DecodedByte(sel, selC, 0, n.e0, mag[0], sign[0]);
    DecodedByte(sel, selC, 1, n.e1, mag[1], sign[1]);
    DecodedByte(sel, selC, 2, n.e2, mag[2], sign[2]);
    DecodedByte(sel, selC, 3, n.e3, mag[3], sign[3]);
    out := Word(mag[0] | sign[0], mag[1] | sign[1], mag[2] | sign[2], mag[3] | sign[3]);
  }

  // ------------------------------------------------------------------ the planes

  /** Ten bytes per lane laid out per block: 32 x 8 bytes, then 32 x 2 bytes. */
  function Interleave<T>(rec: (int, int) -> T, blocks: nat): (plane: seq<T>)
    ensures |plane| == blocks * 320
  {
    seq(blocks * 320, i requires i >= 0 => InterleavedByte(rec, i / 320, i % 320))
  }

  function InterleavedByte<T>(rec: (int, int) -> T, blk: int, o: int): T {
    if o < 256 then rec(blk * 32 + o / 8, o % 8) else rec(blk * 32 + (o - 256) / 2, 8 + (o - 256) % 2)
  }

  /** The kernel's pointers: P8 at blk 320 + 8 lane, P2 at blk 320 + 256 + 2 lane. */
  function RecordAddr(blk: int, lane: int, b: int): int {
    if b < 8 then blk * 320 + lane * 8 + b else blk * 320 + 256 + lane * 2 + (b - 8)
  }

  lemma InterleaveAt<T>(rec: (int, int) -> T, blocks: nat, blk: nat, lane: nat, b: nat)
    requires blk < blocks && lane < 32 && b < 10
    ensures 0 <= RecordAddr(blk, lane, b) < blocks * 320
    ensures Interleave(rec, blocks)[RecordAddr(blk, lane, b)] == rec(blk * 32 + lane, b)
  {
    var o := if b < 8 then lane * 8 + b else 256 + lane * 2 + (b - 8);
    DivModUnique(RecordAddr(blk, lane, b), 320, blk, o);
    if b < 8 {
      DivModUnique(o, 8, lane, b);
    } else {
      DivModUnique(o - 256, 2, lane, b - 8);
    }
  }

  /** The eight record words of a lane's chunk. */
  function ChunkWords(nibs: Matrix<bv8>, kblocks: nat, chunk: nat): (v: seq<bv32>)
    requires kblocks > 0
    ensures |v| == 8
  {
    seq(8, w => Word5(ChunkWord(nibs, kblocks, chunk, w)))
  }

  /** The records of all chunks. */
  function Records(nibs: Matrix<bv8>, kblocks: nat): int -> seq<bv8>
    requires kblocks > 0
  {
    chunk => if chunk >= 0 then Record(ChunkWords(nibs, kblocks, chunk)) else []
  }

  function ByteOf(records: int -> seq<bv8>): (int, int) -> bv8 {
    (chunk, b) => if 0 <= b < |records(chunk)| then records(chunk)[b] else 0
  }

  function QuintalPlane(nibs: Matrix<bv8>, nblocks: nat, kblocks: nat): seq<bv8>
    requires kblocks > 0
  {
    Interleave(ByteOf(Records(nibs, kblocks)), nblocks * kblocks)
  }

  /** g lists the records of a matrix, kept closed. */
  ghost predicate RecordsOf(g: int -> seq<bv8>, nibs: Matrix<bv8>, kblocks: nat)
    requires kblocks > 0
  {
    forall chunk {:trigger Open(chunk)} :: chunk >= 0 ==> g(chunk) == Record(ChunkWords(nibs, kblocks, chunk))
  }

  method PackChunk(nibs: Matrix<bv8>, kblocks: nat, chunk: nat, ghost g: int -> seq<bv8>) returns (r: seq<bv8>)
    requires kblocks > 0 && RecordsOf(g, nibs, kblocks)
    ensures r == g(chunk)
  {
    assert Open(chunk);
    r := PackRecord(ChunkWords(nibs, kblocks, chunk));
  }

  method PackChunks(nibs: Matrix<bv8>, nblocks: nat, kblocks: nat, ghost g: int -> seq<bv8>) returns (plane: seq<bv8>)
    requires kblocks > 0 && RecordsOf(g, nibs, kblocks)
    ensures plane == Interleave(ByteOf(g), nblocks * kblocks)
  {
    var records: seq<seq<bv8>> := [];
    for chunk := 0 to nblocks * kblocks * 32
      invariant |records| == chunk
      invariant forall i :: 0 <= i < chunk ==> records[i] == g(i)
    {
      var r := PackChunk(nibs, kblocks, chunk, g);
      records := records + [r];
    }
    var f: int -> seq<bv8> := chunk => if 0 <= chunk < |records| then records[chunk] else [];
    plane := Interleave(ByteOf(f), nblocks * kblocks);
    SameRecords(ByteOf(f), ByteOf(g), nblocks * kblocks);
  }

  /** pack_quintal_fragment_major: every lane's record through the spill loop, then the interleaving. */
  method PackQuintal(nibs: Matrix<bv8>, nblocks: nat, kblocks: nat) returns (plane: seq<bv8>)
    requires kblocks > 0
    ensures plane == QuintalPlane(nibs, nblocks, kblocks)
  {
    plane := PackChunks(nibs, nblocks, kblocks, Records(nibs, kblocks));
  }

  lemma SameRecords<T>(f: (int, int) -> T, g: (int, int) -> T, blocks: nat)
    requires forall chunk, b :: 0 <= chunk < blocks * 32 && 0 <= b < 10 ==> f(chunk, b) == g(chunk, b)
    ensures Interleave(f, blocks) == Interleave(g, blocks)
  {
    forall i | 0 <= i < blocks * 320
      ensures Interleave(f, blocks)[i] == Interleave(g, blocks)[i]
    {
      assert i / 320 < blocks;
    }
  }

  function Codes(nibs: Matrix<bv8>): Matrix<bv8> { (r, c) => Code(nibs(r, c)) }

  ghost predicate FourBit(nibs: Matrix<bv8>) { forall r, c :: nibs(r, c) < 16 }

  // ------------------------------------------------------------------ the decode of a block

  /** R12, R13 and R16 hold a record, kept closed. */
  ghost predicate Registers(r12: bv32, r13: bv32, r16: bv32, v: seq<bv32>)
    requires |v| == 8
  {
    forall k {:trigger Open(k)} :: k == 0 ==>
      && r12 == Pair(Short0(v[0], v[1]), Short1(v[1], v[2], v[3]))
      && r13 == Pair(Short2(v[3], v[4]), Short3(v[4], v[5], v[6]))
      && r16 == Pair(Short4(v[6], v[7]), 0)
  }

  /** LDG.E.64 of the first eight bytes of a record, LDG.E.U16 of the last two. */
  method LoadRecord(b: seq<bv8>, ghost v: seq<bv32>) returns (r12: bv32, r13: bv32, r16: bv32)
    requires |v| == 8 && |b| == 10 && b == Record(v)
    ensures Registers(r12, r13, r16, v)
  {
    ghost var s0, s1, s2 := Short0(v[0], v[1]), Short1(v[1], v[2], v[3]), Short2(v[3], v[4]);
    ghost var s3, s4 := Short3(v[4], v[5], v[6]), Short4(v[6], v[7]);
    r12, r13, r16 := LoadShorts(b, s0, s1, s2, s3, s4);
  }

  method LoadShorts(b: seq<bv8>, ghost s0: bv32, ghost s1: bv32, ghost s2: bv32, ghost s3: bv32, ghost s4: bv32)
    returns (r12: bv32, r13: bv32, r16: bv32)
    requires |b| == 10 && b == ShortBytes(s0, s1, s2, s3, s4)
    ensures r12 == Pair(s0, s1) && r13 == Pair(s2, s3) && r16 == Pair(s4, 0)
  {
    LoadedPair(s0, s1);
    LoadedPair(s2, s3);
    LoadedPair(s4, 0);
    r12 := Load32(b[0], b[1], b[2], b[3]);
    r13 := Load32(b[4], b[5], b[6], b[7]);
    r16 := Load32(b[8], b[9], 0, 0);
  }

  method ExtractWord(r12: bv32, r13: bv32, r16: bv32, ghost v: seq<bv32>, w: nat) returns (c: bv32)
    requires Tens(v) && w < 8 && Registers(r12, r13, r16, v)
    ensures c == v[w]
  {
    assert Open(0);
    ExtractsWord(r12, r13, r16, v, w);
    c := Extract10(r12, r13, r16, w);
  }

  /** A plane byte carries the codes of a word's elements, kept closed. */
  ghost predicate ByteCodes(b: bv8, n: Word<bv8>) {
    forall j {:trigger Open(j)} :: 0 <= j < 4 ==> Field(b, j) == Code(n.At(j))
  }

  /** One word: spread of its base byte, then the quintal word. */
  method DecodeElements(r: bv32, c: bv32, ghost b: bv8, ghost n: Word<bv8>) returns (out: Word<bv8>)
    requires r & 0xff == b as bv32 && IsNibbles(n) && ByteCodes(b, n) && WordIs(c, n)
    ensures out == Bytes(n)
  {
    var selC := SpreadByte(r, b);
    SpreadCode(selC, b, n, 0, n.e0);
    SpreadCode(selC, b, n, 1, n.e1);
    SpreadCode(selC, b, n, 2, n.e2);
    SpreadCode(selC, b, n, 3, n.e3);
    out := DecodeWord(selC, c, n);
  }

  lemma SpreadCode(selC: bv32, b: bv8, n: Word<bv8>, j: int, nib: bv8)
    requires 0 <= j < 4 && Nibble(selC, j) == Field(b, j) as bv32 && ByteCodes(b, n) && nib == n.At(j)
    ensures CodeAt(selC, j, nib)
  {
    assert Open(j);
  }

  /** The words, elements and codes of a lane's chunk, kept closed: v are its record words, n(w) its nibbles. */
  ghost predicate ChunkIs(nibs: Matrix<bv8>, nb: nat, kb: nat, lane: nat, v: seq<bv32>, n: seq<Word<bv8>>) {
    && |n| == 8 && Tens(v)
    && (forall w {:trigger n[w]} :: 0 <= w < 8 ==> IsNibbles(n[w]) && WordIs(v[w], n[w]))
    && forall w {:trigger n[w]} :: 0 <= w < 8 ==> n[w] == NibbleWord(nibs, nb, kb, lane, w)
  }

  ghost predicate WordIs(c: bv32, n: Word<bv8>) { forall k {:trigger Open(k)} :: k == 0 ==> c == Word5(n) }

  lemma Word5Bound(n: Word<bv8>)
    requires IsNibbles(n)
    ensures Word5(n) < 1024
  {
    var d0, k0, b0 := SplitElement(n.e0);
    var d1, k1, b1 := SplitElement(n.e1);
    var d2, k2, b2 := SplitElement(n.e2);
    var d3, k3, b3 := SplitElement(n.e3);
    WordDigits(Word5(n), n, d0, d1, d2, d3, k0, k1, k2, k3, b0, b1, b2, b3);
    FourDigits(d0, d1, d2, d3);
  }

  lemma FourDigits(d0: bv32, d1: bv32, d2: bv32, d3: bv32)
    requires d0 < 5 && d1 < 5 && d2 < 5 && d3 < 5
    ensures Base5(d0, d1, d2, d3) < 1024
  {
  }

  lemma ChunkOf(nibs: Matrix<bv8>, nblocks: nat, kblocks: nat, nb: nat, kb: nat, lane: nat) returns (v: seq<bv32>, n: seq<Word<bv8>>)
    requires nb < nblocks && kb < kblocks && lane < 32 && FourBit(nibs)
    ensures ChunkIs(nibs, nb, kb, lane, v, n)
    ensures RecordIs(nibs, kblocks, ChunkIndex(kblocks, nb, kb, lane), v)
  {
    var chunk := ChunkIndex(kblocks, nb, kb, lane);
    ChunkDigits(kblocks, nb, kb, lane);
    v := ChunkWords(nibs, kblocks, chunk);
    n := seq(8, w => ChunkWord(nibs, kblocks, chunk, w));
    forall w | 0 <= w < 8
      ensures IsNibbles(n[w]) && WordIs(v[w], n[w]) && v[w] < 1024
    {
      Word5Bound(n[w]);
    }
  }

  ghost predicate RecordIs(nibs: Matrix<bv8>, kblocks: nat, chunk: nat, v: seq<bv32>)
    requires kblocks > 0
  {
    |v| == 8 && forall k {:trigger Open(k)} :: k == 0 ==> v == ChunkWords(nibs, kblocks, chunk)
  }

  lemma BaseField(codes: Matrix<bv8>, nblocks: nat, kblocks: nat, nb: nat, kb: nat, lane: nat, w: nat, j: nat, i: nat, byte: bv8)
    requires nb < nblocks && kb < kblocks && lane < 32 && w < 8 && j < 4 && TwoBit(codes)
    requires i == ChunkIndex(kblocks, nb, kb, lane) * 8 + w && i < |PackFragmentMajor(codes, nblocks, kblocks)|
    requires byte == PackFragmentMajor(codes, nblocks, kblocks)[i]
    ensures Field(byte, j) == codes(WordRow(nb, lane, w), WordCol(kb, lane, w, j))
  {
    PackedFields(codes, nblocks, kblocks, nb, kb, lane, w);
  }

  /** The codes of a nibble matrix, kept closed. */
  ghost predicate CodesAre(codes: Matrix<bv8>, nibs: Matrix<bv8>) {
    TwoBit(codes) && forall r, c {:trigger codes(r, c)} :: codes(r, c) == Code(nibs(r, c))
  }

  lemma CodesClosed(codes: Matrix<bv8>, nibs: Matrix<bv8>)
    requires codes == Codes(nibs)
    ensures CodesAre(codes, nibs)
  {
    forall r, c
      ensures codes(r, c) < 4 && codes(r, c) == Code(nibs(r, c))
    {
      CodeRange(nibs(r, c));
    }
  }

  /** The byte of the base plane at chunk * 8 + w carries the codes of word w. */
  lemma BaseByte(codes: Matrix<bv8>, nibs: Matrix<bv8>, nblocks: nat, kblocks: nat, nb: nat, kb: nat, lane: nat, w: nat, n: Word<bv8>, i: nat, byte: bv8)
    requires nb < nblocks && kb < kblocks && lane < 32 && w < 8 && CodesAre(codes, nibs)
    requires n == NibbleWord(nibs, nb, kb, lane, w)
    requires i == ChunkIndex(kblocks, nb, kb, lane) * 8 + w && i < |PackFragmentMajor(codes, nblocks, kblocks)|
    requires byte == PackFragmentMajor(codes, nblocks, kblocks)[i]
    ensures ByteCodes(byte, n)
  {
    forall j | 0 <= j < 4
      ensures Field(byte, j) == Code(n.At(j))
    {
      BaseField(codes, nblocks, kblocks, nb, kb, lane, w, j, i, byte);
      NibbleAt(nibs, nb, kb, lane, w, j);
    }
  }

  /** The nibbles of word w of a lane, by matrix position. */
  function NibbleWord(nibs: Matrix<bv8>, nb: nat, kb: nat, lane: nat, w: nat): Word<bv8> {
    Word(nibs(WordRow(nb, lane, w), WordCol(kb, lane, w, 0)), nibs(WordRow(nb, lane, w), WordCol(kb, lane, w, 1)),
         nibs(WordRow(nb, lane, w), WordCol(kb, lane, w, 2)), nibs(WordRow(nb, lane, w), WordCol(kb, lane, w, 3)))
  }

  lemma NibbleAt(nibs: Matrix<bv8>, nb: nat, kb: nat, lane: nat, w: nat, j: nat)
    requires j < 4
    ensures NibbleWord(nibs, nb, kb, lane, w).At(j) == nibs(WordRow(nb, lane, w), WordCol(kb, lane, w, j))
  {
  }

  /** The ten bytes at the kernel's two addresses are the record of the lane's chunk. */
  method RecordBytes(quintal: seq<bv8>, ghost nibs: Matrix<bv8>, nblocks: nat, kblocks: nat, nb: nat, kb: nat, lane: nat, ghost v: seq<bv32>)
    returns (b: seq<bv8>)
    requires nb < nblocks && kb < kblocks && lane < 32 && quintal == QuintalPlane(nibs, nblocks, kblocks)
    requires RecordIs(nibs, kblocks, ChunkIndex(kblocks, nb, kb, lane), v)
    ensures |b| == 10 && b == Record(v)
  {
    var blk := nb * kblocks + kb;
    BlockBound(nblocks, kblocks, nb, kb);
    ghost var g := Records(nibs, kblocks);
    RecordOf(g, nibs, kblocks, blk * 32 + lane, v);
    b := ReadRecord(quintal, g, nblocks * kblocks, blk, lane);
  }

  lemma RecordOf(g: int -> seq<bv8>, nibs: Matrix<bv8>, kblocks: nat, chunk: nat, v: seq<bv32>)
    requires kblocks > 0 && g == Records(nibs, kblocks) && RecordIs(nibs, kblocks, chunk, v)
    ensures g(chunk) == Record(v) && |g(chunk)| == 10
  {
    assert Open(0);
  }

  lemma BlockBound(nblocks: nat, kblocks: nat, nb: nat, kb: nat)
    requires nb < nblocks && kb < kblocks
    ensures nb * kblocks + kb < nblocks * kblocks
  {
    assert (nb + 1) * kblocks <= nblocks * kblocks;
  }

  method ReadRecord(quintal: seq<bv8>, ghost g: int -> seq<bv8>, blocks: nat, blk: nat, lane: nat) returns (b: seq<bv8>)
    requires blk < blocks && lane < 32 && quintal == Interleave(ByteOf(g), blocks) && |g(blk * 32 + lane)| == 10
    ensures b == g(blk * 32 + lane)
  {
    b := [];
    for i := 0 to 10
      invariant |b| == i && forall k :: 0 <= k < i ==> b[k] == g(blk * 32 + lane)[k]
    {
      InterleaveAt(ByteOf(g), blocks, blk, lane, i);
      b := b + [quintal[RecordAddr(blk, lane, i)]];
    }
  }

  /** Bytes of the loaded base registers R24 and R25. */
  method BaseRegister(base: seq<bv8>, at: nat, w: nat) returns (r: bv32)
    requires at + 8 <= |base| && w < 8
    ensures r & 0xff == base[at + w] as bv32
  {
    var q := at + w / 4 * 4;
    var x := LoadWord(base[q], base[q + 1], base[q + 2], base[q + 3]);
    r := if w % 4 == 0 then x else if w % 4 == 1 then x >> 8 else if w % 4 == 2 then x >> 16 else x >> 24;
  }

  /** The decoded bytes of a word of nibbles. */
  function Bytes(n: Word<bv8>): Word<bv8> { Word(E4m3Byte(n.e0), E4m3Byte(n.e1), E4m3Byte(n.e2), E4m3Byte(n.e3)) }

  /** One word of a lane: base byte, record word, decode. */
  method DecodeLaneWord(base: seq<bv8>, ghost codes: Matrix<bv8>, ghost nibs: Matrix<bv8>, nblocks: nat, kblocks: nat, nb: nat, kb: nat,
                        lane: nat, w: nat, c: bv32, ghost n: Word<bv8>) returns (out: Word<bv8>)
    requires nb < nblocks && kb < kblocks && lane < 32 && w < 8 && CodesAre(codes, nibs)
    requires base == PackFragmentMajor(codes, nblocks, kblocks)
    requires n == NibbleWord(nibs, nb, kb, lane, w) && IsNibbles(n) && WordIs(c, n)
    ensures out == Bytes(n)
  {
    var at := ChunkIndex(kblocks, nb, kb, lane) * 8;
    ChunkBound(nblocks, kblocks, nb, kb, lane);
    var r := BaseRegister(base, at, w);
    BaseByte(codes, nibs, nblocks, kblocks, nb, kb, lane, w, n, at + w, base[at + w]);
    out := DecodeElements(r, c, base[at + w], n);
  }

  /** The eight words of one lane. */
  method DecodeLane(base: seq<bv8>, quintal: seq<bv8>, ghost codes: Matrix<bv8>, ghost nibs: Matrix<bv8>, nblocks: nat, kblocks: nat,
                    nb: nat, kb: nat, lane: nat) returns (d: seq<Word<bv8>>)
    requires nb < nblocks && kb < kblocks && lane < 32 && FourBit(nibs) && CodesAre(codes, nibs)
    requires base == PackFragmentMajor(codes, nblocks, kblocks) && quintal == QuintalPlane(nibs, nblocks, kblocks)
    ensures |d| == 8
    ensures forall w :: 0 <= w < 8 ==> d[w] == Bytes(NibbleWord(nibs, nb, kb, lane, w))
  {
    ghost var v, n := ChunkOf(nibs, nblocks, kblocks, nb, kb, lane);
    var b := RecordBytes(quintal, nibs, nblocks, kblocks, nb, kb, lane, v);
    var r12, r13, r16 := LoadRecord(b, v);
    d := [];
    for w := 0 to 8
      invariant |d| == w && forall i :: 0 <= i < w ==> d[i] == Bytes(NibbleWord(nibs, nb, kb, lane, i))
    {
      var c := ExtractWord(r12, r13, r16, v, w);
      var out := DecodeLaneWord(base, codes, nibs, nblocks, kblocks, nb, kb, lane, w, c, n[w]);
      d := d + [out];
    }
  }

  lemma WordPlace(nb: nat, kb: nat, tile: nat, g: nat, half: nat, lohi: nat, t: nat, j: nat)
    requires tile < 2 && g < 8 && half < 2 && lohi < 2 && t < 4 && j < 4
    ensures WordRow(nb, g * 4 + t, tile * 4 + half * 2 + lohi) == nb * 16 + tile * 8 + g
    ensures WordCol(kb, g * 4 + t, tile * 4 + half * 2 + lohi, j) == kb * 64 + half * 32 + lohi * 16 + t * 4 + j
  {
    var lane, w := g * 4 + t, tile * 4 + half * 2 + lohi;
    assert lane / 4 == g && lane % 4 == t;
    assert w / 4 == tile && w / 2 == tile * 2 + half && w / 2 % 2 == half && w % 2 == lohi;
  }

  /** Every element of a block has a lane, a word and a position in it. */
  lemma ElementPlace(nb: nat, kb: nat, r: nat, c: nat) returns (lane: nat, w: nat, j: nat)
    requires nb * 16 <= r < nb * 16 + 16 && kb * 64 <= c < kb * 64 + 64
    ensures lane < 32 && w < 8 && j < 4 && WordRow(nb, lane, w) == r && WordCol(kb, lane, w, j) == c
  {
    var x, y := r - nb * 16, c - kb * 64;
    var tile, g, half, z := x / 8, x % 8, y / 32, y % 32;
    var lohi, u := z / 16, z % 16;
    var t := u / 4;
    j := u % 4;
    lane, w := g * 4 + t, tile * 4 + half * 2 + lohi;
    WordPlace(nb, kb, tile, g, half, lohi, t, j);
  }

  /** Element j of word w of a lane, in the registers a block's decode leaves. */
  ghost predicate Holds(d: seq<seq<Word<bv8>>>, lane: nat, w: nat, j: nat, b: bv8)
    requires |d| == 32 && forall l :: 0 <= l < 32 ==> |d[l]| == 8
  {
    lane < 32 && w < 8 && j < 4 && d[lane][w].At(j) == b
  }

  lemma BytesAt(n: Word<bv8>, j: nat)
    requires j < 4
    ensures Bytes(n).At(j) == E4m3Byte(n.At(j))
  {
  }

  /** A block's registers hold the exact byte of each of its elements, at its place. */
  lemma ElementDecoded(d: seq<seq<Word<bv8>>>, nibs: Matrix<bv8>, nb: nat, kb: nat, r: nat, c: nat) returns (lane: nat, w: nat, j: nat)
    requires |d| == 32 && forall l :: 0 <= l < 32 ==> |d[l]| == 8
    requires forall l, w :: 0 <= l < 32 && 0 <= w < 8 ==> d[l][w] == Bytes(NibbleWord(nibs, nb, kb, l, w))
    requires nb * 16 <= r < nb * 16 + 16 && kb * 64 <= c < kb * 64 + 64
    ensures WordRow(nb, lane, w) == r && WordCol(kb, lane, w, j) == c && Holds(d, lane, w, j, E4m3Byte(nibs(r, c)))
  {
    lane, w, j := ElementPlace(nb, kb, r, c);
    var n := NibbleWord(nibs, nb, kb, lane, w);
    BytesAt(n, j);
    NibbleAt(nibs, nb, kb, lane, w, j);
  }

  /** The register byte of an element of the block, by its row and column, has the value of its nibble and the nibble's sign. */
  ghost predicate Decodes(d: seq<seq<Word<bv8>>>, nibs: Matrix<bv8>, r: nat, c: nat)
    requires |d| == 32 && forall l :: 0 <= l < 32 ==> |d[l]| == 8
  {
    var b := d[r % 8 * 4 + c % 16 / 4][r % 16 / 8 * 4 + c % 64 / 16].At(c % 4);
    E4m3(b) == E2m1(nibs(r, c)) && (b & 0x80 != 0 <==> nibs(r, c) & 8 != 0)
  }

  /** The digits of a row and of a column are those of its place in the block. */
  lemma RowDigits(nb: nat, r: nat, x: nat)
    requires r == nb * 16 + x && x < 16
    ensures r % 16 == x && r % 8 == x % 8
  {
    DivModUnique(r, 16, nb, x);
    DivModUnique(r, 8, 2 * nb + x / 8, x % 8);
  }

  lemma ColDigits(kb: nat, c: nat, y: nat)
    requires c == kb * 64 + y && y < 64
    ensures c % 64 == y && c % 16 == y % 16 && c % 4 == y % 4
  {
    DivModUnique(c, 64, kb, y);
    DivModUnique(c, 16, 4 * kb + y / 16, y % 16);
    DivModUnique(c, 4, 16 * kb + y / 4, y % 4);
  }

  lemma BlockColumn(y: nat) returns (half: nat, lohi: nat, t: nat, j: nat)
    requires y < 64
    ensures half < 2 && lohi < 2 && t < 4 && j < 4 && y == half * 32 + lohi * 16 + t * 4 + j
    ensures y / 16 == half * 2 + lohi && y % 16 / 4 == t && y % 4 == j
  {
    half, lohi, t, j := y / 32, y / 16 % 2, y % 16 / 4, y % 4;
  }

  lemma PlaceOf(nb: nat, kb: nat, r: nat, c: nat)
    requires nb * 16 <= r < nb * 16 + 16 && kb * 64 <= c < kb * 64 + 64
    ensures WordRow(nb, r % 8 * 4 + c % 16 / 4, r % 16 / 8 * 4 + c % 64 / 16) == r
    ensures WordCol(kb, r % 8 * 4 + c % 16 / 4, r % 16 / 8 * 4 + c % 64 / 16, c % 4) == c
  {
    var x, y := r - nb * 16, c - kb * 64;
    RowDigits(nb, r, x);
    ColDigits(kb, c, y);
    var half, lohi, t, j := BlockColumn(y);
    WordPlace(nb, kb, x / 8, x % 8, half, lohi, t, j);
  }

  lemma BlockDecoded(d: seq<seq<Word<bv8>>>, nibs: Matrix<bv8>, nb: nat, kb: nat, r: nat, c: nat)
    requires |d| == 32 && (forall l :: 0 <= l < 32 ==> |d[l]| == 8) && FourBit(nibs)
    requires forall l, w :: 0 <= l < 32 && 0 <= w < 8 ==> d[l][w] == Bytes(NibbleWord(nibs, nb, kb, l, w))
    requires nb * 16 <= r < nb * 16 + 16 && kb * 64 <= c < kb * 64 + 64
    ensures Decodes(d, nibs, r, c)
  {
    PlaceOf(nb, kb, r, c);
    var lane, w, j := r % 8 * 4 + c % 16 / 4, r % 16 / 8 * 4 + c % 64 / 16, c % 4;
    BytesAt(NibbleWord(nibs, nb, kb, lane, w), j);
    NibbleAt(nibs, nb, kb, lane, w, j);
    ByteValue(nibs(r, c));
  }

  /** The byte means the nibble: its e4m3 value is the e2m1 value, and the two zeros keep their signs. */
  lemma ByteValue(nib: bv8)
    requires nib < 16
    ensures E4m3(E4m3Byte(nib)) == E2m1(nib) && (E4m3Byte(nib) & 0x80 != 0 <==> nib & 8 != 0)
  {
    SmallPowers();
    var b := E4m3Byte(nib);
    var e, m := ((b & 0x7f) >> 3) as int, (b & 7) as int;
    var x := nib & 7;
    assert (nib == x || nib == x + 8);
    if x == 0 { assert e == 0 && m == 0; }
    else if x == 1 { assert e == 6 && m == 0; }
    else if x == 2 { assert e == 7 && m == 0; }
    else if x == 3 { assert e == 7 && m == 4; }
    else if x == 4 { assert e == 8 && m == 0; }
    else if x == 5 { assert e == 8 && m == 4; }
    else if x == 6 { assert e == 9 && m == 0; }
    else { assert e == 9 && m == 4; }
  }

  /** The codec: whatever the nibbles, packing both planes and decoding one (n-block, k-block) at the kernel's addresses
      leaves in every register the exact e4m3 bytes of the nibbles at that register's matrix positions. */
  method DecodeBlock(nibs: Matrix<bv8>, nblocks: nat, kblocks: nat, nb: nat, kb: nat) returns (d: seq<seq<Word<bv8>>>)
    requires nb < nblocks && kb < kblocks && FourBit(nibs)
    ensures |d| == 32 && forall l :: 0 <= l < 32 ==> |d[l]| == 8
    ensures forall l, w :: 0 <= l < 32 && 0 <= w < 8 ==> d[l][w] == Bytes(NibbleWord(nibs, nb, kb, l, w))
    ensures forall r, c :: nb * 16 <= r < nb * 16 + 16 && kb * 64 <= c < kb * 64 + 64 ==> Decodes(d, nibs, r, c)
  {
    var codes := Codes(nibs);
    CodesClosed(codes, nibs);
    var base := PackFragmentMajor(codes, nblocks, kblocks);
    var quintal := PackQuintal(nibs, nblocks, kblocks);
    d := [];
    for lane := 0 to 32
      invariant |d| == lane && forall l :: 0 <= l < lane ==> |d[l]| == 8
      invariant forall l, w :: 0 <= l < lane && 0 <= w < 8 ==> d[l][w] == Bytes(NibbleWord(nibs, nb, kb, l, w))
    {
      var words := DecodeLane(base, quintal, codes, nibs, nblocks, kblocks, nb, kb, lane);
      d := d + [words];
    }
    forall r, c | nb * 16 <= r < nb * 16 + 16 && kb * 64 <= c < kb * 64 + 64
      ensures Decodes(d, nibs, r, c)
    {
      BlockDecoded(d, nibs, nb, kb, r, c);
    }
  }
}
