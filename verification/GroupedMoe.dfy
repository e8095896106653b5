/** The grouped MoE layout: routed (token, expert) pairs claim rows of their expert's padded block with atomic adds, in any
    order; the grouped GEMMs work row by row; the gather adds each token's rows back in top-k order. */
module GroupedMoe {
  import opened Arithmetic
  import opened Sums

  /** A batch: the routed expert of every pair (token * topk + k), -1 for none, and the padding of a block. */
  datatype Batch = Batch(tokens: nat, topk: nat, experts: nat, route: seq<int>, align: nat) {
    ghost predicate Valid() {
      && topk > 0 && align > 0 && |route| == tokens * topk
      && forall p :: 0 <= p < |route| ==> -1 <= route[p] < experts
    }

    function Token(p: nat): nat
      requires topk > 0
    {
      p / topk
    }

    /** The pairs that have an expert. */
    ghost function Live(): set<nat> { set p: nat | p < |route| && route[p] >= 0 }

    ghost function PairsOf(e: int): set<nat> { set p: nat | p < |route| && route[p] == e }

    ghost function Count(e: int): nat { |PairsOf(e)| }

    function RoundUp(n: nat): (r: nat)
      requires align > 0
      ensures r >= n
    {
      assert (n + align - 1) / align * align >= n by { RoundUpBound(n, align); }
      (n + align - 1) / align * align
    }

    /** expert_start_loc before the scatter: the running sum of the rounded-up counts. */
    ghost function Start(e: nat): nat
      requires align > 0
    {
      if e == 0 then 0 else Start(e - 1) + RoundUp(Count(e - 1))
    }

    /** The exclusive end of an expert's live rows. */
    ghost function End(e: nat): nat
      requires align > 0
    {
      Start(e) + Count(e)
    }
  }

  lemma RoundUpBound(n: nat, a: nat)
    requires a > 0
    ensures n <= (n + a - 1) / a * a < n + a
  {
    var q := (n + a - 1) / a;
    assert n + a - 1 == q * a + (n + a - 1) % a;
  }

  lemma {:induction false} MultipleMono(q: nat, m: nat, a: nat)
    requires q <= m
    ensures q * a <= m * a && (q < m ==> q * a + a <= m * a)
  {
    if q < m {
      MultipleMono(q, m - 1, a);
      assert m * a == (m - 1) * a + a;
    }
  }

  /** RoundUp gives the least multiple of the alignment that is not below n. */
  lemma RoundUpLeast(b: Batch, n: nat, q: nat) returns (m: nat)
    requires b.align > 0
    ensures b.RoundUp(n) == m * b.align && n <= m * b.align
    ensures q * b.align >= n ==> b.RoundUp(n) <= q * b.align
  {
    m := (n + b.align - 1) / b.align;
    RoundUpBound(n, b.align);
    if q < m {
      MultipleMono(q, m, b.align);
    } else {
      MultipleMono(m, q, b.align);
    }
  }

  lemma RoundUpMultiple(b: Batch, q: nat, start: nat, n: nat)
    requires b.align > 0 && start == q * b.align
    ensures b.RoundUp(start + n) == start + b.RoundUp(n)
  {
    var a := b.align;
    var m := n + a - 1;
    assert start + m == (q + m / a) * a + m % a;
    DivModUnique(start + m, a, q + m / a, m % a);
    assert (q + m / a) * a == q * a + m / a * a;
  }

  // ------------------------------------------------------------------ blocks

  lemma {:induction false} StartIsMultiple(b: Batch, e: nat) returns (q: nat)
    requires b.align > 0
    ensures b.Start(e) == q * b.align
  {
    if e == 0 {
      q := 0;
    } else {
      q := StartIsMultiple(b, e - 1);
      var r := (b.Count(e - 1) + b.align - 1) / b.align;
      assert (q + r) * b.align == q * b.align + r * b.align;
      q := q + r;
    }
  }

  lemma {:induction false} BlocksInOrder(b: Batch, e: nat, f: nat)
    requires b.align > 0 && e < f
    ensures b.End(e) <= b.Start(e) + b.RoundUp(b.Count(e)) <= b.Start(f)
  {
    if e < f - 1 {
      BlocksInOrder(b, e, f - 1);
    }
  }

  lemma NextStart(b: Batch, e: nat)
    requires b.align > 0
    ensures b.RoundUp(b.End(e)) == b.Start(e + 1)
  {
    var q := StartIsMultiple(b, e);
    RoundUpMultiple(b, q, b.Start(e), b.Count(e));
  }

  lemma RoundUpZero(b: Batch)
    requires b.align > 0
    ensures b.RoundUp(0) == 0
  {
    DivModUnique(b.align - 1, b.align, 0, b.align - 1);
  }

  /** Where the activation kernel starts expert e, given the ends. */
  ghost function StartOfEnds(b: Batch, e: nat): nat
    requires b.align > 0
  {
    if e == 0 then b.RoundUp(0) else b.RoundUp(b.End(e - 1))
  }

  /** The start of a block is the previous end rounded up, empty experts included. */
  lemma StartFromEnd(b: Batch, e: nat)
    requires b.align > 0
    ensures StartOfEnds(b, e) == b.Start(e)
  {
    if e == 0 {
      RoundUpZero(b);
    } else {
      NextStart(b, e - 1);
      assert e - 1 + 1 == e;
    }
  }

  // ------------------------------------------------------------------ the scatter

  /** The blocks as the scatter sees them: where each expert's rows start and where its live rows end. */
  datatype Layout = Layout(start: seq<nat>, end: seq<nat>) {
    /** Every expert has as many rows as pairs, and blocks follow each other. */
    ghost predicate Fits(b: Batch) {
      && |start| == |end| == b.experts
      && (forall e :: 0 <= e < b.experts ==> start[e] + |b.PairsOf(e)| == end[e])
      && forall e, f :: 0 <= e < f < b.experts ==> end[e] <= start[f]
    }

    ghost predicate LiveRow(row: nat)
      requires |start| == |end|
    {
      exists e :: 0 <= e < |start| && start[e] <= row < end[e]
    }
  }

  /** The layout of the cumulative sum of the rounded-up counts. */
  ghost function LayoutOf(b: Batch): (l: Layout)
    requires b.Valid()
    ensures |l.start| == |l.end| == b.experts
  {
    Layout(seq(b.experts, e requires 0 <= e < b.experts => b.Start(e)), seq(b.experts, e requires 0 <= e < b.experts => b.End(e)))
  }

  lemma LayoutFits(b: Batch)
    requires b.Valid()
    ensures LayoutOf(b).Fits(b)
  {
    forall e, f | 0 <= e < f < b.experts
      ensures LayoutOf(b).end[e] <= LayoutOf(b).start[f]
    {
      BlocksInOrder(b, e, f);
    }
  }

  /** Shared memory during the scatter: the placement cursors, the rows claimed by pairs whose atomic add has happened, and
      what has been stored: output_index, and for each row the token copied there. */
  datatype State = State(cursor: seq<nat>, dest: map<nat, nat>, index: map<nat, nat>, wrote: set<nat>, rows: map<nat, nat>)

  ghost predicate Init(l: Layout, s: State) {
    s.cursor == l.start && s.dest == map[] && s.index == map[] && s.wrote == {} && s.rows == map[]
  }

  /** atomic_add on the pair's expert. */
  ghost predicate Claims(b: Batch, s: State, s': State, p: nat) {
    && p < |b.route| && 0 <= b.route[p] < |s.cursor| && p !in s.dest
    && var e := b.route[p];
       s' == s.(cursor := s.cursor[e := s.cursor[e] + 1], dest := s.dest[p := s.cursor[e]])
  }

  ghost predicate StoresIndex(s: State, s': State, p: nat) {
    p in s.dest && p !in s.index && s' == s.(index := s.index[p := s.dest[p]])
  }

  ghost predicate StoresRow(b: Batch, s: State, s': State, p: nat)
    requires b.topk > 0
  {
    p in s.dest && p !in s.wrote && s' == s.(wrote := s.wrote + {p}, rows := s.rows[s.dest[p] := b.Token(p)])
  }

  /** One step of some program on some pair; programs take pairs in any order and at any speed. */
  ghost predicate Step(b: Batch, s: State, s': State)
    requires b.topk > 0
  {
    exists p: nat :: Claims(b, s, s', p) || StoresIndex(s, s', p) || StoresRow(b, s, s', p)
  }

  ghost predicate Run(b: Batch, l: Layout, tr: seq<State>)
    requires b.topk > 0
  {
    |tr| > 0 && Init(l, tr[0]) && forall i :: 0 <= i < |tr| - 1 ==> Step(b, tr[i], tr[i + 1])
  }

  /** All programs are done. */
  ghost predicate Complete(b: Batch, s: State) {
    s.dest.Keys == b.Live() && s.index.Keys == b.Live() && s.wrote == b.Live()
  }

  ghost function Claimed(b: Batch, s: State, e: int): set<nat> { set p: nat | p in s.dest && p < |b.route| && b.route[p] == e }

  /** Row d belongs to a pair of expert e. */
  ghost predicate Holder(b: Batch, s: State, e: nat, d: nat) {
    exists p: nat :: p in s.dest && p < |b.route| && b.route[p] == e && s.dest[p] == d
  }

  /** Every cursor stands past the rows its expert's pairs have claimed. */
  ghost predicate Cursors(b: Batch, l: Layout, s: State) {
    && |s.cursor| == |l.start| == b.experts
    && (forall e :: 0 <= e < b.experts ==> s.cursor[e] == l.start[e] + |Claimed(b, s, e)|)
    && forall e: nat, d: nat {:trigger Holder(b, s, e, d)} :: e < b.experts && l.start[e] <= d < s.cursor[e] ==> Holder(b, s, e, d)
  }

  /** Claims are rows below their expert's cursor, and no two pairs of an expert have the same. */
  ghost predicate ClaimsInv(b: Batch, l: Layout, s: State)
    requires |s.cursor| == |l.start| == b.experts
  {
    && (forall p :: p in s.dest ==> p < |b.route| && 0 <= b.route[p] < b.experts)
    && (forall p :: p in s.dest ==> l.start[b.route[p]] <= s.dest[p] < s.cursor[b.route[p]])
    && forall p, q :: p in s.dest && q in s.dest && p != q && b.route[p] == b.route[q] ==> s.dest[p] != s.dest[q]
  }

  ghost predicate WrittenBy(s: State, d: nat) { exists p :: p in s.wrote && p in s.dest && s.dest[p] == d }

  /** What has been stored is what was claimed, with the pair's token. */
  ghost predicate Stores(b: Batch, s: State)
    requires b.topk > 0
  {
    && (forall p :: p in s.index ==> p in s.dest && s.index[p] == s.dest[p])
    && (forall p :: p in s.wrote ==> p in s.dest && s.dest[p] in s.rows && s.rows[s.dest[p]] == b.Token(p))
    && forall d :: d in s.rows ==> WrittenBy(s, d)
  }

  ghost predicate Inv(b: Batch, l: Layout, s: State)
    requires b.topk > 0
  {
    Cursors(b, l, s) && ClaimsInv(b, l, s) && Stores(b, s)
  }

  lemma InitInv(b: Batch, l: Layout, s: State)
    requires b.topk > 0 && l.Fits(b) && Init(l, s)
    ensures Inv(b, l, s)
  {
    forall e | 0 <= e < b.experts
      ensures s.cursor[e] == l.start[e] + |Claimed(b, s, e)|
    {
      assert Claimed(b, s, e) == {};
    }
  }

  lemma ClaimedNext(b: Batch, s: State, s': State, p: nat, e: int)
    requires Claims(b, s, s', p)
    ensures |Claimed(b, s', e)| == |Claimed(b, s, e)| + if e == b.route[p] then 1 else 0
  {
    if e == b.route[p] {
      assert Claimed(b, s', e) == Claimed(b, s, e) + {p};
    } else {
      assert Claimed(b, s', e) == Claimed(b, s, e);
    }
  }

  lemma ClaimKeepsCursors(b: Batch, l: Layout, s: State, s': State, p: nat)
    requires Cursors(b, l, s) && Claims(b, s, s', p)
    ensures Cursors(b, l, s')
  {
    forall e | 0 <= e < b.experts
      ensures s'.cursor[e] == l.start[e] + |Claimed(b, s', e)|
    {
      ClaimedNext(b, s, s', p, e);
    }
    forall e: nat, d: nat | e < b.experts && l.start[e] <= d < s'.cursor[e]
      ensures Holder(b, s', e, d)
    {
      if e == b.route[p] && d == s.cursor[e] {
        assert p in s'.dest && s'.dest[p] == d;
      } else {
        assert Holder(b, s, e, d);
        var q: nat :| q in s.dest && q < |b.route| && b.route[q] == e && s.dest[q] == d;
        assert s'.dest[q] == d;
      }
    }
  }

  lemma ClaimKeepsClaims(b: Batch, l: Layout, s: State, s': State, p: nat)
    requires Cursors(b, l, s) && ClaimsInv(b, l, s) && Claims(b, s, s', p)
    ensures |s'.cursor| == |l.start| && ClaimsInv(b, l, s')
  {
    ClaimsBelow(b, l, s, s', p);
    ClaimsDiffer(b, l, s, s', p);
  }

  lemma ClaimsBelow(b: Batch, l: Layout, s: State, s': State, p: nat)
    requires Cursors(b, l, s) && ClaimsInv(b, l, s) && Claims(b, s, s', p)
    ensures |s'.cursor| == |s.cursor|
    ensures forall q :: q in s'.dest ==> q < |b.route| && 0 <= b.route[q] < b.experts && l.start[b.route[q]] <= s'.dest[q] < s'.cursor[b.route[q]]
  {
    assert s.cursor[b.route[p]] == l.start[b.route[p]] + |Claimed(b, s, b.route[p])|;
    forall q | q in s'.dest
      ensures q < |b.route| && 0 <= b.route[q] < b.experts && l.start[b.route[q]] <= s'.dest[q] < s'.cursor[b.route[q]]
    {
      if q != p {
        assert q in s.dest;
      }
    }
  }

  lemma ClaimsDiffer(b: Batch, l: Layout, s: State, s': State, p: nat)
    requires Cursors(b, l, s) && ClaimsInv(b, l, s) && Claims(b, s, s', p)
    ensures forall q, r :: q in s'.dest && r in s'.dest && q != r && q < |b.route| && r < |b.route| && b.route[q] == b.route[r] ==>
              s'.dest[q] != s'.dest[r]
  {
    forall q, r | q in s'.dest && r in s'.dest && q != r && q < |b.route| && r < |b.route| && b.route[q] == b.route[r]
      ensures s'.dest[q] != s'.dest[r]
    {
      if q == p {
        assert r in s.dest;
      } else if r == p {
        assert q in s.dest;
      } else {
        assert q in s.dest && r in s.dest;
      }
    }
  }

  lemma ClaimKeepsStores(b: Batch, s: State, s': State, p: nat)
    requires b.topk > 0 && Stores(b, s) && Claims(b, s, s', p)
    ensures Stores(b, s')
  {
    forall d | d in s'.rows
      ensures WrittenBy(s', d)
    {
      var q :| q in s.wrote && q in s.dest && s.dest[q] == d;
      assert q in s'.wrote && q in s'.dest && s'.dest[q] == d;
    }
  }

  /** Stores touch neither cursors nor claims. */
  lemma StoreKeepsCursors(b: Batch, l: Layout, s: State, s': State)
    requires Cursors(b, l, s) && s'.cursor == s.cursor && s'.dest == s.dest
    ensures Cursors(b, l, s')
  {
    forall e
      ensures Claimed(b, s', e) == Claimed(b, s, e)
    {
    }
    forall e: nat, d: nat | e < b.experts && l.start[e] <= d < s'.cursor[e]
      ensures Holder(b, s', e, d)
    {
      assert Holder(b, s, e, d);
    }
  }

  lemma {:induction false} Subset(x: set<nat>, y: set<nat>)
    requires x <= y
    ensures |x| <= |y|
  {
    if x != {} {
      var a :| a in x;
      Subset(x - {a}, y - {a});
    }
  }

  /** A claimed row stays inside its expert's live rows. */
  lemma ClaimInBlock(b: Batch, l: Layout, s: State, p: nat)
    requires Cursors(b, l, s) && ClaimsInv(b, l, s) && l.Fits(b) && p in s.dest
    ensures 0 <= b.route[p] < b.experts && l.start[b.route[p]] <= s.dest[p] < l.end[b.route[p]]
  {
    var e := b.route[p];
    Subset(Claimed(b, s, e), b.PairsOf(e));
  }

  /** No two pairs ever hold the same row, of one expert or of two. */
  lemma RowsDistinct(b: Batch, l: Layout, s: State, p: nat, q: nat)
    requires Cursors(b, l, s) && ClaimsInv(b, l, s) && l.Fits(b) && p in s.dest && q in s.dest && p != q
    ensures s.dest[p] != s.dest[q]
  {
    ClaimInBlock(b, l, s, p);
    ClaimInBlock(b, l, s, q);
  }

  lemma RowKeepsWrote(b: Batch, l: Layout, s: State, s': State, p: nat, q: nat)
    requires b.topk > 0 && l.Fits(b) && Inv(b, l, s) && StoresRow(b, s, s', p) && q in s'.wrote
    ensures q in s'.dest && s'.dest[q] in s'.rows && s'.rows[s'.dest[q]] == b.Token(q)
  {
    if q != p {
      RowsDistinct(b, l, s, p, q);
    }
  }

  lemma RowKeepsWritten(b: Batch, s: State, s': State, p: nat, d: nat)
    requires b.topk > 0 && Stores(b, s) && StoresRow(b, s, s', p) && d in s'.rows
    ensures WrittenBy(s', d)
  {
    if d == s.dest[p] {
      assert p in s'.wrote;
    } else {
      assert d in s.rows;
      var q :| q in s.wrote && q in s.dest && s.dest[q] == d;
      assert q in s'.wrote;
    }
  }

  lemma RowKeepsStores(b: Batch, l: Layout, s: State, s': State, p: nat)
    requires b.topk > 0 && l.Fits(b) && Inv(b, l, s) && StoresRow(b, s, s', p)
    ensures Stores(b, s')
  {
    forall q | q in s'.wrote
      ensures q in s'.dest && s'.dest[q] in s'.rows && s'.rows[s'.dest[q]] == b.Token(q)
    {
      RowKeepsWrote(b, l, s, s', p, q);
    }
    forall d | d in s'.rows
      ensures WrittenBy(s', d)
    {
      RowKeepsWritten(b, s, s', p, d);
    }
  }

  lemma IndexKeepsStores(b: Batch, s: State, s': State, p: nat)
    requires b.topk > 0 && Stores(b, s) && StoresIndex(s, s', p)
    ensures Stores(b, s')
  {
    forall d | d in s'.rows
      ensures WrittenBy(s', d)
    {
      var q :| q in s.wrote && q in s.dest && s.dest[q] == d;
      assert q in s'.wrote;
    }
  }

  lemma StepKeepsInv(b: Batch, l: Layout, s: State, s': State)
    requires b.topk > 0 && l.Fits(b) && Inv(b, l, s) && Step(b, s, s')
    ensures Inv(b, l, s')
  {
    var p: nat :| Claims(b, s, s', p) || StoresIndex(s, s', p) || StoresRow(b, s, s', p);
    if Claims(b, s, s', p) {
      ClaimKeepsCursors(b, l, s, s', p);
      ClaimKeepsClaims(b, l, s, s', p);
      ClaimKeepsStores(b, s, s', p);
    } else if StoresIndex(s, s', p) {
      StoreKeepsCursors(b, l, s, s');
      IndexKeepsStores(b, s, s', p);
    } else {
      StoreKeepsCursors(b, l, s, s');
      RowKeepsStores(b, l, s, s', p);
    }
  }

  lemma {:induction false} RunInv(b: Batch, l: Layout, tr: seq<State>, i: nat)
    requires b.topk > 0 && l.Fits(b) && Run(b, l, tr) && i < |tr|
    ensures Inv(b, l, tr[i])
  {
    if i == 0 {
      InitInv(b, l, tr[0]);
    } else {
      RunInv(b, l, tr, i - 1);
      assert Step(b, tr[i - 1], tr[i]);
      StepKeepsInv(b, l, tr[i - 1], tr[i]);
    }
  }

  // ------------------------------------------------------------------ after the scatter

  /** Every live pair has a row of its own inside its expert's live rows, holding its token; output_index names it. */
  ghost predicate Placed(b: Batch, l: Layout, s: State)
    requires b.Valid() && |l.start| == |l.end| == b.experts
  {
    && (forall p :: p in b.Live() ==> p in s.index && l.start[b.route[p]] <= s.index[p] < l.end[b.route[p]])
    && (forall p :: p in b.Live() ==> s.index[p] in s.rows && s.rows[s.index[p]] == b.Token(p))
    && forall p, q :: p in b.Live() && q in b.Live() && p != q ==> s.index[p] != s.index[q]
  }

  lemma AllClaimed(b: Batch, l: Layout, s: State, e: nat)
    requires b.Valid() && l.Fits(b) && Cursors(b, l, s) && Complete(b, s) && e < b.experts
    ensures s.cursor[e] == l.end[e]
  {
    assert Claimed(b, s, e) == b.PairsOf(e) by {
      forall p | p in b.PairsOf(e)
        ensures p in Claimed(b, s, e)
      {
        assert p in b.Live();
      }
    }
  }

  lemma CompletePlaces(b: Batch, l: Layout, s: State)
    requires b.Valid() && l.Fits(b) && Inv(b, l, s) && Complete(b, s)
    ensures Placed(b, l, s)
  {
    forall p | p in b.Live()
      ensures p in s.index && l.start[b.route[p]] <= s.index[p] < l.end[b.route[p]]
    {
      ClaimInBlock(b, l, s, p);
    }
    forall p, q | p in b.Live() && q in b.Live() && p != q
      ensures s.index[p] != s.index[q]
    {
      RowsDistinct(b, l, s, p, q);
    }
  }

  lemma WrittenIsLive(b: Batch, l: Layout, s: State, row: nat)
    requires l.Fits(b) && Cursors(b, l, s) && ClaimsInv(b, l, s) && WrittenBy(s, row)
    ensures l.LiveRow(row)
  {
    var p :| p in s.wrote && p in s.dest && s.dest[p] == row;
    ClaimInBlock(b, l, s, p);
  }

  lemma LiveIsWritten(b: Batch, l: Layout, s: State, row: nat)
    requires b.Valid() && l.Fits(b) && Cursors(b, l, s) && Complete(b, s) && l.LiveRow(row)
    ensures WrittenBy(s, row)
  {
    var e: nat :| e < |l.start| && l.start[e] <= row < l.end[e];
    AllClaimed(b, l, s, e);
    assert Holder(b, s, e, row);
    var p: nat :| p in s.dest && p < |b.route| && b.route[p] == e && s.dest[p] == row;
    assert p in s.wrote;
  }

  lemma CompleteRows(b: Batch, l: Layout, s: State, row: nat)
    requires b.Valid() && l.Fits(b) && Inv(b, l, s) && Complete(b, s)
    ensures row in s.rows <==> l.LiveRow(row)
  {
    if row in s.rows {
      WrittenIsLive(b, l, s, row);
    } else if l.LiveRow(row) {
      LiveIsWritten(b, l, s, row);
    }
  }

  /** Every live pair is placed, the cursors hold the exclusive live ends, and the rows written are exactly the live ones. */
  lemma Scattered(b: Batch, l: Layout, s: State)
    requires b.Valid() && l.Fits(b) && Inv(b, l, s) && Complete(b, s)
    ensures Placed(b, l, s) && s.cursor == l.end
    ensures forall row :: row in s.rows <==> row >= 0 && l.LiveRow(row)
  {
    CompletePlaces(b, l, s);
    forall e: nat | e < b.experts
      ensures s.cursor[e] == l.end[e]
    {
      AllClaimed(b, l, s, e);
    }
    forall row: nat
      ensures row in s.rows <==> l.LiveRow(row)
    {
      CompleteRows(b, l, s, row);
    }
  }

  /** So it is after any scatter order, the old per-token loop's among them. */
  lemma ScatterPlaces(b: Batch, l: Layout, tr: seq<State>)
    requires b.Valid() && l.Fits(b) && Run(b, l, tr) && Complete(b, tr[|tr| - 1])
    ensures Placed(b, l, tr[|tr| - 1]) && tr[|tr| - 1].cursor == l.end
    ensures forall row :: row in tr[|tr| - 1].rows <==> row >= 0 && l.LiveRow(row)
  {
    RunInv(b, l, tr, |tr| - 1);
    Scattered(b, l, tr[|tr| - 1]);
  }

  // ------------------------------------------------------------------ the programs of the scatter kernel

  /** The memory and, for every program of the grid, how many pairs it has finished and how far it is with the next: 0 before
      its atomic add, 1 after it, 2 after the store to output_index. */
  datatype Grid = Grid(mem: State, turn: seq<nat>, phase: seq<nat>) {
    ghost predicate Shaped(grid: nat) { grid > 0 && |turn| == |phase| == grid && forall g :: 0 <= g < grid ==> phase[g] <= 2 }
  }

  /** Program g strides from g by the number of programs. */
  function Pair(grid: nat, g: nat, turn: nat): nat { g + turn * grid }

  ghost predicate GridInit(l: Layout, grid: nat, s: Grid) {
    s.Shaped(grid) && Init(l, s.mem) && forall g :: 0 <= g < grid ==> s.turn[g] == 0 && s.phase[g] == 0
  }

  /** The next instruction of program g: no guard says whether another program has had the pair. */
  ghost predicate ProgramStep(b: Batch, grid: nat, s: Grid, s': Grid, g: nat)
    requires b.topk > 0 && s.Shaped(grid)
  {
    && g < grid && |s.mem.cursor| == b.experts
    && var p := Pair(grid, g, s.turn[g]);
       && p < |b.route| && b.route[p] < b.experts
       && if b.route[p] < 0 then s' == s.(turn := s.turn[g := s.turn[g] + 1], phase := s.phase[g := 0])
          else if s.phase[g] == 0 then
            s' == Grid(s.mem.(cursor := s.mem.cursor[b.route[p] := s.mem.cursor[b.route[p]] + 1], dest := s.mem.dest[p := s.mem.cursor[b.route[p]]]),
                       s.turn, s.phase[g := 1])
          else
            && p in s.mem.dest
            && if s.phase[g] == 1 then s' == Grid(s.mem.(index := s.mem.index[p := s.mem.dest[p]]), s.turn, s.phase[g := 2])
               else s' == Grid(s.mem.(wrote := s.mem.wrote + {p}, rows := s.mem.rows[s.mem.dest[p] := b.Token(p)]),
                               s.turn[g := s.turn[g] + 1], s.phase[g := 0])
  }

  /** Pair p has passed stage k of its program: 1 the atomic add, 2 the index, 3 the row. */
  ghost predicate Passed(b: Batch, grid: nat, s: Grid, p: nat, k: nat)
    requires s.Shaped(grid)
  {
    && p < |b.route| && b.route[p] >= 0
    && (p / grid < s.turn[p % grid] || (p / grid == s.turn[p % grid] && s.phase[p % grid] >= k))
  }

  /** The memory shows of each pair exactly what its program has done. */
  ghost predicate InStep(b: Batch, grid: nat, s: Grid)
    requires s.Shaped(grid)
  {
    forall p: nat {:trigger Passed(b, grid, s, p, 1)} ::
      (p in s.mem.dest <==> Passed(b, grid, s, p, 1)) && (p in s.mem.index <==> Passed(b, grid, s, p, 2))
      && (p in s.mem.wrote <==> Passed(b, grid, s, p, 3))
  }

  /** Striding by the number of programs, every pair is one program's at one turn. */
  lemma PairIs(grid: nat, g: nat, turn: nat)
    requires g < grid
    ensures Pair(grid, g, turn) % grid == g && Pair(grid, g, turn) / grid == turn
  {
    DivModUnique(Pair(grid, g, turn), grid, turn, g);
  }

  lemma PairOf(grid: nat, p: nat)
    requires grid > 0
    ensures Pair(grid, p % grid, p / grid) == p
  {
  }

  /** A step changes the stage of its own pair only, and by one. */
  lemma PassedNext(b: Batch, grid: nat, s: Grid, s': Grid, g: nat, q: nat, k: nat)
    requires b.topk > 0 && s.Shaped(grid) && s'.Shaped(grid) && ProgramStep(b, grid, s, s', g) && 1 <= k <= 3
    ensures Passed(b, grid, s', q, k) <==>
            Passed(b, grid, s, q, k) || (q == Pair(grid, g, s.turn[g]) && b.route[q] >= 0 && k == s.phase[g] + 1)
  {
    PairIs(grid, g, s.turn[g]);
    PairOf(grid, q);
    assert q % grid == g && q / grid == s.turn[g] <==> q == Pair(grid, g, s.turn[g]);
    assert q % grid != g ==> s'.turn[q % grid] == s.turn[q % grid] && s'.phase[q % grid] == s.phase[q % grid];
  }

  lemma StepShaped(b: Batch, grid: nat, s: Grid, s': Grid, g: nat)
    requires b.topk > 0 && s.Shaped(grid) && ProgramStep(b, grid, s, s', g)
    ensures s'.Shaped(grid)
  {
  }

  /** Every program step is a step of the scatter that takes a pair no other step has taken, or skips a pair without expert. */
  lemma ProgramStepIsStep(b: Batch, grid: nat, s: Grid, s': Grid, g: nat)
    requires b.topk > 0 && s.Shaped(grid) && InStep(b, grid, s) && ProgramStep(b, grid, s, s', g)
    ensures s'.mem == s.mem || Step(b, s.mem, s'.mem)
  {
    var p := Pair(grid, g, s.turn[g]);
    PairIs(grid, g, s.turn[g]);
    assert Passed(b, grid, s, p, 1) <==> b.route[p] >= 0 && s.phase[g] >= 1;
    if b.route[p] >= 0 {
      assert Claims(b, s.mem, s'.mem, p) || StoresIndex(s.mem, s'.mem, p) || StoresRow(b, s.mem, s'.mem, p);
    }
  }

  lemma ProgramStepInStep(b: Batch, grid: nat, s: Grid, s': Grid, g: nat)
    requires b.topk > 0 && s.Shaped(grid) && s'.Shaped(grid) && InStep(b, grid, s) && ProgramStep(b, grid, s, s', g)
    ensures InStep(b, grid, s')
  {
    forall q: nat
      ensures (q in s'.mem.dest <==> Passed(b, grid, s', q, 1)) && (q in s'.mem.index <==> Passed(b, grid, s', q, 2))
              && (q in s'.mem.wrote <==> Passed(b, grid, s', q, 3))
    {
      PassedNext(b, grid, s, s', g, q, 1);
      PassedNext(b, grid, s, s', g, q, 2);
      PassedNext(b, grid, s, s', g, q, 3);
    }
  }

  ghost predicate ProgramRun(b: Batch, l: Layout, grid: nat, tr: seq<Grid>)
    requires b.topk > 0
  {
    && |tr| > 0 && GridInit(l, grid, tr[0])
    && forall i :: 0 <= i < |tr| - 1 ==> StepAt(b, grid, tr, i)
  }

  ghost predicate StepAt(b: Batch, grid: nat, tr: seq<Grid>, i: nat)
    requires b.topk > 0 && i + 1 < |tr|
  {
    GridStep(b, grid, tr[i], tr[i + 1])
  }

  /** Some program is next. */
  ghost predicate GridStep(b: Batch, grid: nat, s: Grid, s': Grid)
    requires b.topk > 0
  {
    s.Shaped(grid) && exists g: nat :: ProgramStep(b, grid, s, s', g)
  }

  /** Every program has run out of pairs. */
  ghost predicate AllDone(b: Batch, grid: nat, s: Grid)
    requires s.Shaped(grid)
  {
    forall g: nat :: g < grid ==> Pair(grid, g, s.turn[g]) >= |b.route|
  }

  lemma GridInitInStep(b: Batch, l: Layout, grid: nat, s: Grid)
    requires GridInit(l, grid, s)
    ensures InStep(b, grid, s)
  {
    forall p: nat, k: nat | k > 0
      ensures !Passed(b, grid, s, p, k)
    {
      assert 0 <= p % grid < grid;
    }
  }

  ghost predicate GridInv(b: Batch, l: Layout, grid: nat, s: Grid)
    requires b.topk > 0
  {
    s.Shaped(grid) && InStep(b, grid, s) && Inv(b, l, s.mem)
  }

  lemma GridStepInv(b: Batch, l: Layout, grid: nat, s: Grid, s': Grid)
    requires b.topk > 0 && l.Fits(b) && GridInv(b, l, grid, s) && GridStep(b, grid, s, s')
    ensures GridInv(b, l, grid, s')
  {
    var g: nat :| ProgramStep(b, grid, s, s', g);
    StepShaped(b, grid, s, s', g);
    ProgramStepIsStep(b, grid, s, s', g);
    ProgramStepInStep(b, grid, s, s', g);
    if s'.mem != s.mem {
      StepKeepsInv(b, l, s.mem, s'.mem);
    }
  }

  /** In every run of every number of programs the memory keeps the invariant of the scatter. */
  lemma {:induction false} ProgramRunInv(b: Batch, l: Layout, grid: nat, tr: seq<Grid>, i: nat)
    requires b.topk > 0 && l.Fits(b) && ProgramRun(b, l, grid, tr) && i < |tr|
    ensures GridInv(b, l, grid, tr[i])
  {
    if i == 0 {
      GridInitInStep(b, l, grid, tr[0]);
      InitInv(b, l, tr[0].mem);
    } else {
      ProgramRunInv(b, l, grid, tr, i - 1);
      assert StepAt(b, grid, tr, i - 1);
      GridStepInv(b, l, grid, tr[i - 1], tr[i]);
    }
  }

  lemma DonePassed(b: Batch, grid: nat, s: Grid, p: nat, k: nat)
    requires s.Shaped(grid) && AllDone(b, grid, s)
    ensures Passed(b, grid, s, p, k) <==> p in b.Live()
  {
    PairOf(grid, p);
    var g := p % grid;
    assert Pair(grid, g, s.turn[g]) >= |b.route|;
    Strides(p / grid, s.turn[g], grid);
  }

  lemma Strides(t: nat, u: nat, grid: nat)
    ensures t >= u ==> t * grid >= u * grid
  {
  }

  /** When all programs are done every live pair has been through all its stages. */
  lemma DoneIsComplete(b: Batch, grid: nat, s: Grid)
    requires s.Shaped(grid) && InStep(b, grid, s) && AllDone(b, grid, s)
    ensures Complete(b, s.mem)
  {
    forall p: nat
      ensures (p in s.mem.dest <==> p in b.Live()) && (p in s.mem.index <==> p in b.Live()) && (p in s.mem.wrote <==> p in b.Live())
    {
      DonePassed(b, grid, s, p, 1);
      DonePassed(b, grid, s, p, 2);
      DonePassed(b, grid, s, p, 3);
    }
  }

  /** For every number of programs and every interleaving of them: when all are done, each live pair has had its turn once and
      has a row of its own, and the cursors and the rows written are as they should be. */
  lemma ScatterPrograms(b: Batch, l: Layout, grid: nat, tr: seq<Grid>)
    requires b.Valid() && l.Fits(b) && ProgramRun(b, l, grid, tr)
    ensures tr[|tr| - 1].Shaped(grid)
    ensures AllDone(b, grid, tr[|tr| - 1]) ==>
      var s := tr[|tr| - 1].mem;
      Placed(b, l, s) && Complete(b, s) && s.cursor == l.end && forall row :: row in s.rows <==> row >= 0 && l.LiveRow(row)
  {
    var last := tr[|tr| - 1];
    ProgramRunInv(b, l, grid, tr, |tr| - 1);
    if AllDone(b, grid, last) {
      DoneIsComplete(b, grid, last);
      Scattered(b, l, last.mem);
    }
  }

  // ------------------------------------------------------------------ two descriptions of the live rows

  /** m_indices: the expert on the first count rows of its block, -1 on all others. */
  ghost predicate MarksRows(b: Batch, l: Layout, m: seq<int>)
    requires |l.start| == |l.end|
  {
    && (forall e: nat, row: nat {:trigger l.start[e], m[row]} :: e < |l.start| && row < |m| && l.start[e] <= row < l.end[e] ==> m[row] == e)
    && (forall row: nat :: row < |m| && !l.LiveRow(row) ==> m[row] == -1)
    && forall e: nat :: e < |l.end| ==> l.end[e] <= |m|
  }

  lemma MarkedIsLive(b: Batch, l: Layout, m: seq<int>, row: nat)
    requires |l.start| == |l.end| && MarksRows(b, l, m)
    ensures (row < |m| && m[row] >= 0) <==> l.LiveRow(row)
  {
    if l.LiveRow(row) {
      var e: nat :| e < |l.start| && l.start[e] <= row < l.end[e];
      assert m[row] == e;
    }
  }

  /** The rows the activation kernel derives from the ends alone: an expert starts where the previous end rounds up to. */
  ghost predicate InEnds(b: Batch, ends: seq<nat>, row: nat)
    requires b.align > 0
  {
    exists e: nat {:trigger EndsStart(b, ends, e)} :: e < |ends| && EndsStart(b, ends, e) <= row < ends[e]
  }

  ghost function EndsStart(b: Batch, ends: seq<nat>, e: nat): nat
    requires b.align > 0 && e < |ends|
  {
    if e == 0 then b.RoundUp(0) else b.RoundUp(ends[e - 1])
  }

  lemma EndsStartIs(b: Batch, e: nat)
    requires b.Valid() && e < b.experts
    ensures EndsStart(b, LayoutOf(b).end, e) == LayoutOf(b).start[e]
  {
    StartFromEnd(b, e);
  }

  /** The rows described by the copied ends with rounded-up starts are the live rows, empty experts included. */
  lemma EndsDescribeLiveRows(b: Batch, row: nat)
    requires b.Valid()
    ensures InEnds(b, LayoutOf(b).end, row) <==> LayoutOf(b).LiveRow(row)
  {
    var l := LayoutOf(b);
    if l.LiveRow(row) {
      var e: nat :| e < |l.start| && l.start[e] <= row < l.end[e];
      EndsStartIs(b, e);
    }
    if InEnds(b, l.end, row) {
      var e: nat :| e < |l.end| && EndsStart(b, l.end, e) <= row < l.end[e];
      EndsStartIs(b, e);
    }
  }

  /** After every complete run of the scatter on the cumulative layout: a row has been written exactly when m_indices has an
      expert for it, which is exactly when the cursors left behind describe it. */
  lemma DescriptionsAgree(b: Batch, grid: nat, tr: seq<Grid>, m: seq<int>, row: nat)
    requires b.Valid() && ProgramRun(b, LayoutOf(b), grid, tr) && MarksRows(b, LayoutOf(b), m)
    ensures tr[|tr| - 1].Shaped(grid)
    ensures AllDone(b, grid, tr[|tr| - 1]) ==>
      var s := tr[|tr| - 1].mem;
      && (row in s.rows <==> row < |m| && m[row] >= 0)
      && (row in s.rows <==> InEnds(b, s.cursor, row))
  {
    LayoutFits(b);
    ScatterPrograms(b, LayoutOf(b), grid, tr);
    MarkedIsLive(b, LayoutOf(b), m, row);
    EndsDescribeLiveRows(b, row);
  }

  /** expert_ends_out.copy_(expert_start_loc): the optional output of the permute. */
  method CopyEnds(cursor: seq<nat>, out: array<nat>)
    requires out.Length == |cursor|
    modifies out
    ensures out[..] == cursor
  {
    for e := 0 to out.Length
      invariant forall i :: 0 <= i < e ==> out[i] == cursor[i]
    {
      out[e] := cursor[e];
    }
  }

  // ------------------------------------------------------------------ the gather

  /** The expert layers as far as the layout cares: what an expert makes of a token's row, and one step of the weighted
      accumulation, whose order matters. */
  datatype Layers<!V> = Layers(row: (nat, nat) -> V, zero: V, add: (V, real, V) -> V)

  /** The direct per-token sum: top-k order, pairs without an expert skipped. */
  function Direct<V>(b: Batch, f: Layers<V>, weight: (nat, nat) -> real, token: nat, k: nat): V
    requires |b.route| == b.tokens * b.topk && token < b.tokens && k <= b.topk
  {
    if k == 0 then f.zero
    else
      PairBound(b, token, k - 1);
      var p := token * b.topk + (k - 1);
      var acc := Direct(b, f, weight, token, k - 1);
      if b.route[p] >= 0 then f.add(acc, weight(token, k - 1), f.row(b.route[p], token)) else acc
  }

  /** What slot k of a token's top-k adds with real addition: its own weight times the row its expert makes of the token. */
  function Share(b: Batch, f: Layers<real>, weight: (nat, nat) -> real, token: nat): int -> real {
    k => if 0 <= k < b.topk && token * b.topk + k < |b.route| && b.route[token * b.topk + k] >= 0
         then weight(token, k) * f.row(b.route[token * b.topk + k], token)
         else 0.0
  }

  /** With real addition the direct sum, and so the gather, adds up weight times row over the routed slots, each once. */
  lemma {:induction false} DirectIsSum(b: Batch, f: Layers<real>, weight: (nat, nat) -> real, token: nat, k: nat)
    requires |b.route| == b.tokens * b.topk && token < b.tokens && k <= b.topk
    requires f.zero == 0.0 && forall acc, w, v :: f.add(acc, w, v) == acc + w * v
    ensures Direct(b, f, weight, token, k) == Sum(Share(b, f, weight, token), 0, k)
  {
    if k > 0 {
      DirectIsSum(b, f, weight, token, k - 1);
      PairBound(b, token, k - 1);
    }
  }

  lemma PairBound(b: Batch, token: nat, k: nat)
    requires token < b.tokens && k < b.topk
    ensures 0 <= token * b.topk + k < b.tokens * b.topk
  {
    assert (token + 1) * b.topk <= b.tokens * b.topk;
  }

  /** What the grouped GEMMs and the activation leave: live rows are computed from their expert and their own row only,
      the rest is whatever the workspace holds. */
  ghost predicate Computed<V>(l: Layout, s: State, f: Layers<V>, out: nat -> V)
    requires |l.start| == |l.end|
  {
    forall e: nat, row: nat {:trigger l.start[e], out(row)} :: e < |l.start| && l.start[e] <= row < l.end[e] && row in s.rows ==>
      out(row) == f.row(e, s.rows[row])
  }

  lemma RowOfPair<V>(b: Batch, l: Layout, s: State, f: Layers<V>, out: nat -> V, p: nat)
    requires b.Valid() && l.Fits(b) && Placed(b, l, s) && Computed(l, s, f, out) && p in b.Live()
    ensures p in s.index && out(s.index[p]) == f.row(b.route[p], b.Token(p))
  {
    var e: nat := b.route[p];
    assert l.start[e] <= s.index[p] < l.end[e];
  }

  /** _fwd_kernel_ep_gather for one token: the rows of its pairs, in top-k order. */
  method Gather<V>(b: Batch, ghost l: Layout, ghost s: State, index: map<nat, nat>, out: nat -> V, f: Layers<V>, weight: (nat, nat) -> real, token: nat)
    returns (acc: V)
    requires b.Valid() && l.Fits(b) && Placed(b, l, s) && Computed(l, s, f, out) && index == s.index && token < b.tokens
    ensures acc == Direct(b, f, weight, token, b.topk)
  {
    acc := f.zero;
    for k := 0 to b.topk
      invariant acc == Direct(b, f, weight, token, k)
    {
      PairBound(b, token, k);
      var p := token * b.topk + k;
      DivModUnique(p, b.topk, token, k);
      if b.route[p] >= 0 {
        assert p in b.Live();
        RowOfPair(b, l, s, f, out, p);
        acc := f.add(acc, weight(token, k), out(index[p]));
      }
    }
  }

  /** Whatever the order of the atomics, any two scatters, the per-token loop's among them, hand the gather the same value
      for every pair. */
  lemma OrderDoesNotMatter<V>(b: Batch, l: Layout, f: Layers<V>, tr: seq<State>, tr2: seq<State>, p: nat, out: nat -> V, out2: nat -> V)
    requires b.Valid() && l.Fits(b) && Run(b, l, tr) && Run(b, l, tr2) && p in b.Live()
    requires Complete(b, tr[|tr| - 1]) && Complete(b, tr2[|tr2| - 1])
    requires Computed(l, tr[|tr| - 1], f, out) && Computed(l, tr2[|tr2| - 1], f, out2)
    ensures p in tr[|tr| - 1].index && p in tr2[|tr2| - 1].index
    ensures out(tr[|tr| - 1].index[p]) == out2(tr2[|tr2| - 1].index[p])
  {
    ScatterPlaces(b, l, tr);
    ScatterPlaces(b, l, tr2);
    RowOfPair(b, l, tr[|tr| - 1], f, out, p);
    RowOfPair(b, l, tr2[|tr2| - 1], f, out2, p);
  }
}
