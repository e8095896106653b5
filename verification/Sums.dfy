/** Finite sums of a real-valued function over an integer range [lo, hi). */
module Sums {

  function Sum(f: int -> real, lo: int, hi: int): real
    decreases hi - lo, f
  {
    if lo >= hi then 0.0 else Sum(f, lo, hi - 1) + f(hi - 1)
  }

  lemma {:induction false} SumExt(f: int -> real, g: int -> real, lo: int, hi: int)
    requires forall i :: lo <= i < hi ==> f(i) == g(i)
    ensures Sum(f, lo, hi) == Sum(g, lo, hi)
    decreases hi - lo
  {
    if lo < hi {
      SumExt(f, g, lo, hi - 1);
    }
  }

  lemma {:induction false} SumSplit(f: int -> real, lo: int, mid: int, hi: int)
    requires lo <= mid <= hi
    ensures Sum(f, lo, hi) == Sum(f, lo, mid) + Sum(f, mid, hi)
    decreases hi - mid
  {
    if mid < hi {
      SumSplit(f, lo, mid, hi - 1);
    }
  }

  lemma Distribute(x: real, y: real, c: real)
    ensures (x + y) * c == x * c + y * c
  {
  }

  lemma AddScaled(x: real, y: real, c: real, x': real, y': real)
    requires x' == x * c && y' == y * c
    ensures x' + y' == (x + y) * c
  {
    Distribute(x, y, c);
  }

  /** Index shifted by base and every term scaled by c. */
  lemma {:induction false} SumShiftScale(f: int -> real, g: int -> real, c: real, base: int, n: nat)
    requires forall i :: 0 <= i < n ==> g(base + i) == f(i) * c
    ensures Sum(g, base, base + n) == Sum(f, 0, n) * c
  {
    if n > 0 {
      SumShiftScale(f, g, c, base, n - 1);
      assert base + n - 1 == base + (n - 1);
      var front, last := Sum(f, 0, n - 1), f(n - 1);
      AddScaled(front, last, c, Sum(g, base, base + (n - 1)), g(base + (n - 1)));
    }
  }

  lemma {:induction false} SumShift(f: int -> real, g: int -> real, base: int, n: nat)
    requires forall i :: 0 <= i < n ==> g(base + i) == f(i)
    ensures Sum(g, base, base + n) == Sum(f, 0, n)
  {
    if n > 0 {
      SumShift(f, g, base, n - 1);
      assert base + n - 1 == base + (n - 1);
    }
  }

  lemma {:induction false} SumZero(f: int -> real, lo: int, hi: int)
    requires forall i :: lo <= i < hi ==> f(i) == 0.0
    ensures Sum(f, lo, hi) == 0.0
    decreases hi - lo
  {
    if lo < hi {
      SumZero(f, lo, hi - 1);
    }
  }

  /** Consecutive blocks of equal width add up to the whole range. */
  lemma {:induction false} SumBlocks(f: int -> real, parts: int -> real, width: nat, n: nat)
    requires forall w :: 0 <= w < n ==> parts(w) == Sum(f, w * width, (w + 1) * width)
    ensures Sum(parts, 0, n) == Sum(f, 0, n * width)
  {
    if n > 0 {
      SumBlocks(f, parts, width, n - 1);
      SumSplit(f, 0, (n - 1) * width, n * width);
    }
  }
}
