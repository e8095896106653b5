/** The SASS register operations the generated kernels rely on, on 32-bit registers,
    and the value of the number formats they load. */
module Sass {

  /** Two to an integer power, as a real. */
  function Pow2(e: int): real
    decreases if e < 0 then -e else e
  {
    if e == 0 then 1.0 else if e > 0 then 2.0 * Pow2(e - 1) else Pow2(e + 1) / 2.0
  }

  /** Value of an e4m3 byte: sign, 4 exponent bits (bias 7), 3 mantissa bits. */
  function E4m3(b: bv8): real {
    var mag := b & 0x7f;
    var e := (mag >> 3) as int;
    var m := (mag & 7) as int;
    var v := if e == 0 then m as real * Pow2(-9) else (8 + m) as real * Pow2(e - 10);
    if b & 0x80 != 0 then -v else v
  }

  /** A little-endian 32-bit load of four consecutive bytes. */
  function Load32(b0: bv8, b1: bv8, b2: bv8, b3: bv8): bv32 {
    (b0 as bv32) | ((b1 as bv32) << 8) | ((b2 as bv32) << 16) | ((b3 as bv32) << 24)
  }

  /** The byte of a 32-bit register that a right shift by 8w brings down. */
  function ByteAt(r: bv32, w: int): bv32
    requires 0 <= w < 4
  {
    if w == 0 then r & 0xff
    else if w == 1 then (r >> 8) & 0xff
    else if w == 2 then (r >> 16) & 0xff
    else (r >> 24) & 0xff
  }

  /** One output byte of PRMT: the low three selector bits pick one of the eight bytes of the
      register pair (a, b), the fourth replicates its sign bit. */
  function PrmtByte(a: bv32, b: bv32, nib: bv32): bv8 {
    var pick := nib & 7;
    var x := if pick == 0 then a & 0xff
             else if pick == 1 then (a >> 8) & 0xff
             else if pick == 2 then (a >> 16) & 0xff
             else if pick == 3 then (a >> 24) & 0xff
             else if pick == 4 then b & 0xff
             else if pick == 5 then (b >> 8) & 0xff
             else if pick == 6 then (b >> 16) & 0xff
             else (b >> 24) & 0xff;
    if nib & 8 == 0 then (x & 0xff) as bv8 else if x & 0x80 != 0 then 0xff else 0
  }

  /** The four 2-bit fields of the low byte of r spread to nibble selectors (4 LOP3 + 3 IMAD). */
  function Spread(r: bv32): bv32 {
    (r & 0x03) + (r & 0x0c) * 0x4 + (r & 0x30) * 0x10 + (r & 0xc0) * 0x40
  }

  /** Nibble j of a selector word. */
  function Nibble(sel: bv32, j: int): bv32
    requires 0 <= j < 4
  {
    if j == 0 then sel & 0xf
    else if j == 1 then (sel >> 4) & 0xf
    else if j == 2 then (sel >> 8) & 0xf
    else (sel >> 12) & 0xf
  }

  /** Field j (2 bits) of a byte. */
  function Field(b: bv8, j: int): bv8
    requires 0 <= j < 4
  {
    if j == 0 then b & 3
    else if j == 1 then (b >> 2) & 3
    else if j == 2 then (b >> 4) & 3
    else (b >> 6) & 3
  }

  lemma LoadedByte(b0: bv8, b1: bv8, b2: bv8, b3: bv8)
    ensures ByteAt(Load32(b0, b1, b2, b3), 0) == b0 as bv32
    ensures ByteAt(Load32(b0, b1, b2, b3), 1) == b1 as bv32
    ensures ByteAt(Load32(b0, b1, b2, b3), 2) == b2 as bv32
    ensures ByteAt(Load32(b0, b1, b2, b3), 3) == b3 as bv32
  {
  }

  /** The spread reads the low byte only, whatever the shift left above it. */
  lemma SpreadNibble(r: bv32, b: bv8, j: int)
    requires r & 0xff == b as bv32 && 0 <= j < 4
    ensures Nibble(Spread(r), j) == Field(b, j) as bv32
  {
    if j == 0 {} else if j == 1 {} else if j == 2 {} else {}
  }

  /** LDG/LDS of four consecutive bytes. */
  method LoadWord(b0: bv8, b1: bv8, b2: bv8, b3: bv8) returns (r: bv32)
    ensures ByteAt(r, 0) == b0 as bv32 && ByteAt(r, 1) == b1 as bv32
    ensures ByteAt(r, 2) == b2 as bv32 && ByteAt(r, 3) == b3 as bv32
  {
    LoadedByte(b0, b1, b2, b3);
    r := Load32(b0, b1, b2, b3);
  }

  /** The spread of the low byte of a shifted register. */
  method SpreadByte(r: bv32, ghost b: bv8) returns (sel: bv32)
    requires r & 0xff == b as bv32
    ensures Nibble(sel, 0) == Field(b, 0) as bv32 && Nibble(sel, 1) == Field(b, 1) as bv32
    ensures Nibble(sel, 2) == Field(b, 2) as bv32 && Nibble(sel, 3) == Field(b, 3) as bv32
  {
    SpreadNibble(r, b, 0);
    SpreadNibble(r, b, 1);
    SpreadNibble(r, b, 2);
    SpreadNibble(r, b, 3);
    sel := Spread(r);
  }

  /** PRMT Rd, a, sel, b: the four bytes of Rd. */
  method Prmt(a: bv32, sel: bv32, b: bv32) returns (out: seq<bv8>)
    ensures |out| == 4
    ensures forall j :: 0 <= j < 4 ==> out[j] == PrmtByte(a, b, Nibble(sel, j))
  {
    out := [PrmtByte(a, b, Nibble(sel, 0)), PrmtByte(a, b, Nibble(sel, 1)),
            PrmtByte(a, b, Nibble(sel, 2)), PrmtByte(a, b, Nibble(sel, 3))];
  }
}
