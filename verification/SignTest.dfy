/** The exact sign test over paired completion-token counts. */
module SignTest {

  /** math.comb. */
  function Comb(n: nat, k: int): (c: nat)
    ensures k < 0 || k > n ==> c == 0
    ensures 0 <= k <= n ==> c > 0
  {
    if k < 0 then 0 else if n == 0 then (if k == 0 then 1 else 0) else Comb(n - 1, k - 1) + Comb(n - 1, k)
  }

  function Factorial(n: nat): (f: nat)
    ensures f > 0
  {
    if n == 0 then 1 else n * Factorial(n - 1)
  }

  lemma CombStep(n: nat, k: nat, a: nat, b: nat, fk: nat, fr: nat, f: nat)
    requires 0 < k < n && a * (fk * ((n - k) * fr)) == f && b * (k * fk * fr) == f
    ensures (a + b) * (k * fk * ((n - k) * fr)) == n * f
  {
    assert a * (k * fk * ((n - k) * fr)) == k * (a * (fk * ((n - k) * fr)));
    assert b * (k * fk * ((n - k) * fr)) == (n - k) * (b * (k * fk * fr));
    assert k * f + (n - k) * f == n * f;
  }

  /** The number of ways to choose k of n, by factorials. */
  lemma {:induction false} CombIs(n: nat, k: nat)
    requires k <= n
    ensures Comb(n, k) * (Factorial(k) * Factorial(n - k)) == Factorial(n)
  {
    if k == 0 {
      CombEnds(n);
    } else if k == n {
      CombEnds(n);
    } else {
      CombIs(n - 1, k - 1);
      CombIs(n - 1, k);
      CombStep(n, k, Comb(n - 1, k - 1), Comb(n - 1, k), Factorial(k - 1), Factorial(n - 1 - k), Factorial(n - 1));
    }
  }

  lemma {:induction false} CombEnds(n: nat)
    ensures Comb(n, 0) == 1 && Comb(n, n) == 1
  {
    if n > 0 {
      CombEnds(n - 1);
    }
  }

  function Pow2(n: nat): (p: nat)
    ensures p > 0
  {
    if n == 0 then 1 else 2 * Pow2(n - 1)
  }

  /** comb(n, 0) + ... + comb(n, k). */
  function Lower(n: nat, k: int): nat
    decreases if k < 0 then 0 else k + 1
  {
    if k < 0 then 0 else Lower(n, k - 1) + Comb(n, k)
  }

  /** The p-value of longer against shorter discordant pairs. */
  function SignP(longer: nat, shorter: nat): real {
    var discordant := longer + shorter;
    if discordant == 0 then 1.0
    else
      var k := if longer < shorter then longer else shorter;
      var tail := Lower(discordant, k) as real / Pow2(discordant) as real;
      if 2.0 * tail < 1.0 then 2.0 * tail else 1.0
  }

  // ------------------------------------------------------------------ the binomial row

  lemma {:induction false} Mirror(n: nat, k: int)
    ensures Comb(n, k) == Comb(n, n - k)
  {
    if n > 0 {
      Mirror(n - 1, k - 1);
      Mirror(n - 1, k);
    }
  }

  lemma {:induction false} LowerPascal(n: nat, k: int)
    requires n > 0
    ensures Lower(n, k) == Lower(n - 1, k - 1) + Lower(n - 1, k)
    decreases if k < 0 then 0 else k + 1
  {
    if k >= 0 {
      LowerPascal(n, k - 1);
    }
  }

  lemma {:induction false} RowSum(n: nat)
    ensures Lower(n, n) == Pow2(n)
  {
    if n == 0 {
      assert Lower(0, 0) == Lower(0, -1) + Comb(0, 0);
    } else {
      LowerPascal(n, n);
      RowSum(n - 1);
      assert Lower(n - 1, n) == Lower(n - 1, n - 1) + Comb(n - 1, n);
    }
  }

  /** The upper tail equals the lower one. */
  lemma {:induction false} UpperTail(n: nat, k: int)
    requires -1 <= k <= n
    ensures Lower(n, n) - Lower(n, n - k - 1) == Lower(n, k)
    decreases k + 1
  {
    if k >= 0 {
      UpperTail(n, k - 1);
      Mirror(n, k);
      assert Lower(n, n - k) == Lower(n, n - k - 1) + Comb(n, n - k);
    }
  }

  // ------------------------------------------------------------------ the two-sided tail

  function Abs(x: int): nat { if x < 0 then -x else x }

  /** i heads in n fair flips are at least as far from n / 2 as l heads. */
  predicate AsExtreme(n: nat, l: nat, i: int) { Abs(2 * i - n) >= Abs(2 * l - n) }

  /** Outcomes of n flips with fewer than m heads whose number of heads is as extreme as l. */
  function TwoSided(n: nat, l: nat, m: nat): nat {
    if m == 0 then 0 else TwoSided(n, l, m - 1) + if AsExtreme(n, l, m - 1) then Comb(n, m - 1) else 0
  }

  lemma {:induction false} TwoSidedBelow(n: nat, l: nat, k: nat, m: nat)
    requires l <= n && k == (if l < n - l then l else n - l) && 2 * k < n && m <= n + 1
    ensures m <= k + 1 ==> TwoSided(n, l, m) == Lower(n, m - 1)
    ensures k + 1 <= m <= n - k ==> TwoSided(n, l, m) == Lower(n, k)
    ensures m >= n - k ==> TwoSided(n, l, m) == Lower(n, k) + Lower(n, m - 1) - Lower(n, n - k - 1)
  {
    if m > 0 {
      TwoSidedBelow(n, l, k, m - 1);
      assert Lower(n, m - 1) == Lower(n, m - 2) + Comb(n, m - 1);
    }
  }

  lemma {:induction false} TwoSidedAll(n: nat, l: nat, m: nat)
    requires 2 * l == n
    ensures TwoSided(n, l, m) == Lower(n, m - 1)
  {
    if m > 0 {
      TwoSidedAll(n, l, m - 1);
    }
  }

  /** Twice the lower tail against all outcomes. */
  lemma DoubledTail(n: nat, l: nat, k: nat)
    requires l <= n && k == (if l < n - l then l else n - l)
    ensures 2 * k < n ==> TwoSided(n, l, n + 1) == 2 * Lower(n, k) <= Pow2(n)
    ensures 2 * k == n ==> TwoSided(n, l, n + 1) == Pow2(n) && 2 * Lower(n, k) == Pow2(n) + Comb(n, k)
  {
    RowSum(n);
    UpperTail(n, k);
    if 2 * k < n {
      TwoSidedBelow(n, l, k, n + 1);
      LowerGrows(n, k, n - k - 1);
    } else {
      TwoSidedAll(n, l, n + 1);
    }
  }

  lemma {:induction false} LowerGrows(n: nat, a: nat, b: nat)
    requires a <= b
    ensures Lower(n, a) <= Lower(n, b)
    decreases b
  {
    if a < b {
      LowerGrows(n, a, b - 1);
    }
  }

  lemma Quotients(a: nat, b: nat, p: nat)
    requires p > 0
    ensures a < b <==> a as real / p as real < b as real / p as real
    ensures p as real / p as real == 1.0
    ensures 2.0 * (a as real / p as real) == (2 * a) as real / p as real
  {
    var x, y, z := a as real, b as real, p as real;
    assert x / z * z == x && y / z * z == y;
    assert x < y <==> x / z < y / z by {
      assert (y / z - x / z) * z == y - x;
    }
    assert (2 * a) as real == 2.0 * x;
  }

  /** The p-value is the exact two-sided binomial tail: the share of all outcomes as extreme as the one seen. */
  lemma ExactTail(longer: nat, shorter: nat)
    ensures var n := longer + shorter; SignP(longer, shorter) == TwoSided(n, longer, n + 1) as real / Pow2(n) as real
  {
    var n := longer + shorter;
    var k := if longer < shorter then longer else shorter;
    DoubledTail(n, longer, k);
    Quotients(Lower(n, k), Pow2(n), Pow2(n));
    Quotients(2 * Lower(n, k), Pow2(n), Pow2(n));
    Quotients(Pow2(n), 2 * Lower(n, k), Pow2(n));
  }

  /** Doubling the lower tail exceeds 1 exactly when both sides are equal. */
  lemma ClampOnlyOnTies(longer: nat, shorter: nat)
    requires longer + shorter > 0
    ensures var n, k := longer + shorter, if longer < shorter then longer else shorter;
      2.0 * (Lower(n, k) as real / Pow2(n) as real) > 1.0 <==> longer == shorter
  {
    var n, k := longer + shorter, if longer < shorter then longer else shorter;
    DoubledTail(n, longer, k);
    Quotients(Lower(n, k), Pow2(n), Pow2(n));
    Quotients(Pow2(n), 2 * Lower(n, k), Pow2(n));
  }

  // ------------------------------------------------------------------ paired reports

  /** Completion tokens by item, for the items that finished with at least one token. */
  type Tokens = map<int, nat>

  ghost predicate Positive(t: Tokens) { forall i :: i in t ==> t[i] > 0 }

  /** A run of a report; its item is the item id, or the run index without one, and missing tokens are 0. */
  datatype Row = Row(item: int, phase: string, ok: bool, tokens: nat)

  /** The profiled runs that succeeded with tokens; a later run of an item replaces an earlier one. */
  function Rows(runs: seq<Row>): (t: Tokens)
    ensures Positive(t)
  {
    if runs == [] then map[]
    else
      var last := runs[|runs| - 1];
      var t := Rows(runs[..|runs| - 1]);
      if last.phase == "profile" && last.ok && last.tokens > 0 then t[last.item := last.tokens] else t
  }

  /** The p-value of a candidate report against a baseline report. */
  function PairedSignP(baseline: seq<Row>, candidate: seq<Row>): real {
    SignP(|Longer(Rows(baseline), Rows(candidate))|, |Shorter(Rows(baseline), Rows(candidate))|)
  }

  /** A run that gives its item a count. */
  predicate Counts(r: Row, item: int) { r.item == item && r.phase == "profile" && r.ok && r.tokens > 0 }

  /** Run j is the last one of its item that counts. */
  predicate LastRun(runs: seq<Row>, item: int, j: int) {
    0 <= j < |runs| && Counts(runs[j], item) && forall i :: j < i < |runs| ==> !Counts(runs[i], item)
  }

  /** An item has a count exactly when a profiled run of it succeeded with tokens, and it is that of the last such run. */
  lemma {:induction false} RowsAre(runs: seq<Row>, item: int)
    ensures item in Rows(runs) <==> exists j :: 0 <= j < |runs| && runs[j].item == item && runs[j].phase == "profile" && runs[j].ok && runs[j].tokens > 0
    ensures forall j :: LastRun(runs, item, j) ==> item in Rows(runs) && Rows(runs)[item] == runs[j].tokens
    ensures item in Rows(runs) ==> exists j :: LastRun(runs, item, j)
  {
    if runs != [] {
      var front, last := runs[..|runs| - 1], |runs| - 1;
      RowsAre(front, item);
      assert forall j :: 0 <= j < last ==> front[j] == runs[j];
      if Counts(runs[last], item) {
        assert LastRun(runs, item, last);
      } else {
        assert forall j :: LastRun(runs, item, j) <==> LastRun(front, item, j);
      }
    }
  }

  function Ratio(baseline: Tokens, candidate: Tokens, i: int): real
    requires i in baseline && i in candidate && baseline[i] > 0
  {
    candidate[i] as real / baseline[i] as real
  }

  function Longer(baseline: Tokens, candidate: Tokens): set<int>
    requires Positive(baseline)
  {
    set i | i in baseline && i in candidate && Ratio(baseline, candidate, i) > 1.0
  }

  function Shorter(baseline: Tokens, candidate: Tokens): set<int>
    requires Positive(baseline)
  {
    set i | i in baseline && i in candidate && Ratio(baseline, candidate, i) < 1.0
  }

  /** The two sides of the test: the items of both reports whose candidate run is longer, and those where it is shorter. */
  lemma SidesAre(baseline: Tokens, candidate: Tokens, i: int)
    requires Positive(baseline)
    ensures i in Longer(baseline, candidate) <==> i in baseline && i in candidate && candidate[i] > baseline[i]
    ensures i in Shorter(baseline, candidate) <==> i in baseline && i in candidate && candidate[i] < baseline[i]
  {
    if i in baseline && i in candidate {
      Quotients(candidate[i], baseline[i], baseline[i]);
      Quotients(baseline[i], candidate[i], baseline[i]);
    }
  }

  lemma Inverted(a: nat, b: nat)
    requires a > 0 && b > 0
    ensures a as real / b as real > 1.0 <==> b as real / a as real < 1.0
  {
    Quotients(a, b, b);
    Quotients(b, a, a);
    Quotients(b, a, b);
  }

  lemma SidesSwap(baseline: Tokens, candidate: Tokens)
    requires Positive(baseline) && Positive(candidate)
    ensures Longer(candidate, baseline) == Shorter(baseline, candidate)
    ensures Shorter(candidate, baseline) == Longer(baseline, candidate)
  {
    forall i | i in baseline && i in candidate
      ensures Ratio(candidate, baseline, i) > 1.0 <==> Ratio(baseline, candidate, i) < 1.0
      ensures Ratio(candidate, baseline, i) < 1.0 <==> Ratio(baseline, candidate, i) > 1.0
    {
      Inverted(baseline[i], candidate[i]);
      Inverted(candidate[i], baseline[i]);
    }
  }

  /** Swapping the reports leaves the p-value. */
  lemma SwapKeepsP(baseline: seq<Row>, candidate: seq<Row>)
    ensures PairedSignP(candidate, baseline) == PairedSignP(baseline, candidate)
  {
    SidesSwap(Rows(baseline), Rows(candidate));
  }
}
