/** The two statistics of an evaluation: McNemar's test of paired outcomes, whose
    exact p is a probability of fair coins, and the Wilson interval. */
module PairedStatistics {
  import opened Options

  const EXACT_BELOW := 25

  // --------------------------------------------------------------- McNemar

  datatype McNemar = McNemar(aOnly: nat, bOnly: nat, both: nat, neither: int, statistic: real, p: real, exact: bool)

  /** How many pairs are (a, b). */
  function Count(a: seq<bool>, b: seq<bool>, x: bool, y: bool): nat
    requires |a| == |b|
  {
    if a == [] then 0
    else Count(a[..|a|-1], b[..|b|-1], x, y) + if a[|a|-1] == x && b[|b|-1] == y then 1 else 0
  }

  /** math.comb */
  function Comb(n: nat, k: nat): nat {
    if k == 0 then 1 else if n == 0 then 0 else Comb(n - 1, k - 1) + Comb(n - 1, k)
  }

  function Pow2(n: nat): (r: nat)
    ensures r > 0
  {
    if n == 0 then 1 else 2 * Pow2(n - 1)
  }

  /** sum(comb(d, i) for i in range(lo, hi)) */
  function CombSum(d: nat, lo: nat, hi: nat): nat
    decreases hi
  {
    if hi <= lo then 0 else CombSum(d, lo, hi - 1) + Comb(d, hi - 1)
  }

  function Min(a: nat, b: nat): nat {
    if a < b then a else b
  }

  /** min(1.0, 2 * tail) */
  function Doubled(tail: nat, all: nat): real
    requires all > 0
  {
    var twice := 2.0 * (tail as real / all as real);
    if twice > 1.0 then 1.0 else twice
  }

  function ExactP(a: nat, b: nat): real {
    Doubled(CombSum(a + b, 0, Min(a, b) + 1), Pow2(a + b))
  }

  /** compare; `tail` is the chi-square tail of a statistic. */
  function Compare(a: seq<bool>, b: seq<bool>, tail: real -> real): Option<McNemar> {
    if |a| != |b| then None
    else
      var x, y, both := Count(a, b, true, false), Count(a, b, false, true), Count(a, b, true, true);
      var neither := |a| - x - y - both;
      if x + y == 0 then Some(McNemar(x, y, both, neither, 0.0, 1.0, true))
      else if x + y < EXACT_BELOW then
        Some(McNemar(x, y, both, neither, Min(x, y) as real, ExactP(x, y), true))
      else
        Some(McNemar(x, y, both, neither, ChiSquare(x, y), tail(ChiSquare(x, y)), false))
  }

  /** With the continuity correction. */
  function ChiSquare(x: nat, y: nat): real
    requires x + y > 0
  {
    var gap := (if x > y then x - y else y - x) - 1;
    (gap * gap) as real / (x + y) as real
  }

  lemma SwapCells(x: nat, y: nat)
    ensures ExactP(x, y) == ExactP(y, x) && Min(x, y) == Min(y, x)
    ensures x + y > 0 ==> ChiSquare(x, y) == ChiSquare(y, x)
  {
    hide Comb, CombSum, Pow2, Doubled;
    assert x + y == y + x;
    if x != y {
      assert (if x > y then x - y else y - x) == (if y > x then y - x else x - y);
    }
  }

  lemma {:induction false} CellsSum(a: seq<bool>, b: seq<bool>)
    requires |a| == |b|
    ensures Count(a, b, true, false) + Count(a, b, false, true) + Count(a, b, true, true) + Count(a, b, false, false) == |a|
    decreases |a|
  {
    if a != [] { CellsSum(a[..|a|-1], b[..|b|-1]); }
  }

  lemma {:induction false} SwapCounts(a: seq<bool>, b: seq<bool>, x: bool, y: bool)
    requires |a| == |b|
    ensures Count(a, b, x, y) == Count(b, a, y, x)
    decreases |a|
  {
    if a != [] { SwapCounts(a[..|a|-1], b[..|b|-1], x, y); }
  }

  /** The four cells are the four kinds of pairs, and exchanging the two runs
      exchanges the two discordant cells and nothing else. */
  lemma SwapKeepsTest(a: seq<bool>, b: seq<bool>, tail: real -> real)
    requires |a| == |b|
    ensures var r, s := Compare(a, b, tail).value, Compare(b, a, tail).value;
      && r.neither == Count(a, b, false, false) && r.aOnly + r.bOnly + r.both + r.neither == |a|
      && s == r.(aOnly := r.bOnly, bOnly := r.aOnly)
  {
    CellsSum(a, b);
    CellsSum(b, a);
    SwapCounts(a, b, true, false);
    SwapCounts(a, b, false, true);
    SwapCounts(a, b, true, true);
    SwapCells(Count(a, b, true, false), Count(a, b, false, true));
    hide Count, ExactP, ChiSquare, Min;
  }

  // ------------------------------------------------------------- fair coins

  /** Of the 2^d outcomes of d tosses, how many have a number of heads that `p`
      holds of, when `heads` have come already. */
  function Outcomes(d: nat, heads: nat, p: nat -> bool): nat {
    if d == 0 then if p(heads) then 1 else 0
    else Outcomes(d - 1, heads, p) + Outcomes(d - 1, heads + 1, p)
  }

  /** As far from an even split as the cells, or farther. */
  function Extreme(d: nat, m: nat): nat -> bool {
    (i: nat) => i <= d && Min(i, d - i) <= m
  }

  /** sum(comb(d, i) for i in range(n) if p(heads + i)) */
  function Weighted(d: nat, heads: nat, p: nat -> bool, n: nat): nat {
    if n == 0 then 0 else Weighted(d, heads, p, n - 1) + if p(heads + n - 1) then Comb(d, n - 1) else 0
  }

  lemma {:induction false} CombOverIsZero(n: nat, k: nat)
    requires k > n
    ensures Comb(n, k) == 0
    decreases n
  {
    if n > 0 {
      CombOverIsZero(n - 1, k - 1);
      CombOverIsZero(n - 1, k);
    }
  }

  lemma {:induction false} WeightedSplits(d: nat, heads: nat, p: nat -> bool, n: nat)
    requires d > 0 && n > 0
    ensures Weighted(d, heads, p, n) == Weighted(d - 1, heads, p, n) + Weighted(d - 1, heads + 1, p, n - 1)
    decreases n
  {
    if n > 1 { WeightedSplits(d, heads, p, n - 1); }
  }

  /** Outcomes are counted by binomial coefficients. */
  lemma {:induction false} OutcomesAreWeighted(d: nat, heads: nat, p: nat -> bool)
    ensures Outcomes(d, heads, p) == Weighted(d, heads, p, d + 1)
    decreases d
  {
    if d == 0 {
      assert Weighted(0, heads, p, 1) == Weighted(0, heads, p, 0) + if p(heads + 1 - 1) then Comb(0, 0) else 0;
    } else {
      OutcomesAreWeighted(d - 1, heads, p);
      OutcomesAreWeighted(d - 1, heads + 1, p);
      WeightedSplits(d, heads, p, d + 1);
      CombOverIsZero(d - 1, d);
      assert Weighted(d - 1, heads, p, d + 1) == Weighted(d - 1, heads, p, d);
    }
  }

  lemma {:induction false} CombSymmetric(n: nat, k: nat)
    requires k <= n
    ensures Comb(n, k) == Comb(n, n - k)
    decreases n
  {
    if n > 0 {
      if k == 0 || k == n {
        CombAll(n);
      } else {
        CombSymmetric(n - 1, k - 1);
        CombSymmetric(n - 1, k);
      }
    }
  }

  lemma {:induction false} CombAll(n: nat)
    ensures Comb(n, n) == 1
    decreases n
  {
    if n > 0 {
      CombAll(n - 1);
      CombOverIsZero(n - 1, n);
    }
  }

  lemma {:induction false} AllOutcomes(d: nat, heads: nat, p: nat -> bool)
    requires forall i :: heads <= i <= heads + d ==> p(i)
    ensures Outcomes(d, heads, p) == Pow2(d)
    decreases d
  {
    if d > 0 {
      AllOutcomes(d - 1, heads, p);
      AllOutcomes(d - 1, heads + 1, p);
    }
  }

  /** The two tails are alike. */
  lemma {:induction false} TailsAlike(d: nat, m: nat)
    requires m < d
    ensures CombSum(d, d - m, d + 1) == CombSum(d, 0, m + 1)
    decreases m
  {
    CombSymmetric(d, m);
    if m == 0 {
      assert CombSum(d, d, d + 1) == CombSum(d, d, d) + Comb(d, d);
      assert CombSum(d, 0, 1) == CombSum(d, 0, 0) + Comb(d, 0);
    } else {
      TailsAlike(d, m - 1);
      CombSumFront(d, d - m, d + 1);
    }
  }

  lemma {:induction false} CombSumFront(d: nat, lo: nat, hi: nat)
    requires lo < hi
    ensures CombSum(d, lo, hi) == Comb(d, lo) + CombSum(d, lo + 1, hi)
    decreases hi
  {
    if lo + 1 < hi { CombSumFront(d, lo, hi - 1); }
  }

  lemma ExtremeAt(d: nat, m: nat, i: nat)
    ensures Extreme(d, m)(i) <==> i <= d && (i <= m || d - i <= m)
  {
    var f := Extreme(d, m);
    assert f(i) <==> i <= d && Min(i, d - i) <= m;
  }

  lemma {:induction false} WeightedTails(d: nat, m: nat, n: nat)
    requires 2 * m < d && n <= d + 1
    ensures Weighted(d, 0, Extreme(d, m), n) ==
      if n <= m + 1 then CombSum(d, 0, n)
      else if n <= d - m then CombSum(d, 0, m + 1)
      else CombSum(d, 0, m + 1) + CombSum(d, d - m, n)
    decreases n
  {
    if n > 0 {
      WeightedTails(d, m, n - 1);
      ExtremeAt(d, m, n - 1);
      assert 0 + n - 1 == n - 1;
    }
  }

  /** Outcomes at least as uneven as a split with `m` on the smaller side. */
  lemma ExtremeOutcomes(d: nat, m: nat)
    requires 2 * m <= d && d > 0
    ensures var n := Outcomes(d, 0, Extreme(d, m));
      if 2 * m == d then n == Pow2(d) else n == 2 * CombSum(d, 0, m + 1)
  {
    var p := Extreme(d, m);
    if 2 * m == d {
      forall i: nat | i <= d ensures p(i) { ExtremeAt(d, m, i); }
      AllOutcomes(d, 0, p);
    } else {
      OutcomesAreWeighted(d, 0, p);
      WeightedTails(d, m, d + 1);
      TailsAlike(d, m);
    }
  }

  lemma {:induction false} HalfOrMore(d: nat, m: nat)
    requires 2 * m == d && d > 0
    ensures 2 * CombSum(d, 0, m + 1) >= Pow2(d)
  {
    var all := (i: nat) => true;
    AllOutcomes(d, 0, all);
    OutcomesAreWeighted(d, 0, all);
    WeightedAll(d, all, d + 1);
    CombSumCut(d, 0, m, d + 1);
    TailsAlike(d, m);
    assert CombSum(d, 0, m + 1) == CombSum(d, 0, m) + Comb(d, m);
  }

  lemma {:induction false} WeightedAll(d: nat, p: nat -> bool, n: nat)
    requires forall i :: p(i)
    ensures Weighted(d, 0, p, n) == CombSum(d, 0, n)
    decreases n
  {
    if n > 0 { WeightedAll(d, p, n - 1); }
  }

  lemma {:induction false} CombSumCut(d: nat, lo: nat, mid: nat, hi: nat)
    requires lo <= mid <= hi
    ensures CombSum(d, lo, hi) == CombSum(d, lo, mid) + CombSum(d, mid, hi)
    decreases hi
  {
    if mid < hi { CombSumCut(d, lo, mid, hi - 1); }
  }

  /** p is `n` out of `all`. */
  predicate Share(p: real, n: nat, all: nat) {
    p * all as real == n as real && 0.0 <= p <= 1.0
  }

  /** The exact p is the chance that fair coins split the discordant pairs at
      least as unevenly, also in a tie, where doubling overshoots and is cut off. */
  lemma ExactIsProbability(a: nat, b: nat)
    requires a + b > 0
    ensures Share(ExactP(a, b), Outcomes(a + b, 0, Extreme(a + b, Min(a, b))), Pow2(a + b))
  {
    var d, m := a + b, Min(a, b);
    var tail, all := CombSum(d, 0, m + 1), Pow2(d);
    ExtremeOutcomes(d, m);
    FewerThanAll(d, 0, Extreme(d, m));
    if 2 * m == d { HalfOrMore(d, m); }
    assert ExactP(a, b) == Doubled(tail, all);
    hide Outcomes, CombSum, Pow2, Extreme, Doubled, ExactP, Share;
    CutOff(tail, all, Outcomes(d, 0, Extreme(d, m)));
  }

  lemma CutOff(tail: nat, all: nat, n: nat)
    requires all > 0 && n <= all && n == (if 2 * tail >= all then all else 2 * tail)
    ensures Share(Doubled(tail, all), n, all)
  {
    Scaled(tail, all);
  }

  lemma Scaled(tail: nat, all: nat)
    requires all > 0
    ensures 2.0 * (tail as real / all as real) * all as real == (2 * tail) as real
    ensures 2.0 * (tail as real / all as real) > 1.0 <==> 2 * tail > all
  {
    var q := tail as real / all as real;
    assert q * all as real == tail as real;
    if 2.0 * q > 1.0 { assert (2.0 * q - 1.0) * all as real > 0.0; }
    if 2.0 * q <= 1.0 { assert (1.0 - 2.0 * q) * all as real >= 0.0; }
  }

  lemma {:induction false} FewerThanAll(d: nat, heads: nat, p: nat -> bool)
    ensures Outcomes(d, heads, p) <= Pow2(d)
    decreases d
  {
    if d > 0 {
      FewerThanAll(d - 1, heads, p);
      FewerThanAll(d - 1, heads + 1, p);
    }
  }

  /** The questions on which the runs came out so. */
  function Pairs(a: seq<bool>, b: seq<bool>, x: bool, y: bool): set<nat>
    requires |a| == |b|
  {
    set i: nat | i < |a| && a[i] == x && b[i] == y
  }

  lemma {:induction false} CountsPairs(a: seq<bool>, b: seq<bool>, x: bool, y: bool)
    requires |a| == |b|
    ensures Count(a, b, x, y) == |Pairs(a, b, x, y)|
    decreases |a|
  {
    if a != [] {
      var n := |a| - 1;
      CountsPairs(a[..n], b[..n], x, y);
      var before := Pairs(a[..n], b[..n], x, y);
      assert n !in before;
      assert Pairs(a, b, x, y) == before + if a[n] == x && b[n] == y then {n} else {};
    }
  }

  /** What compare reports: each cell counts its questions; with fewer than 25
      discordant pairs p is the chance that fair coins split them at least as
      unevenly, and otherwise the tail of the corrected statistic. */
  lemma CompareIsTest(a: seq<bool>, b: seq<bool>, tail: real -> real)
    ensures Compare(a, b, tail) == None <==> |a| != |b|
    ensures |a| == |b| ==>
      var r := Compare(a, b, tail).value;
      var d := r.aOnly + r.bOnly;
      && r.aOnly == |Pairs(a, b, true, false)| && r.bOnly == |Pairs(a, b, false, true)|
      && r.both == |Pairs(a, b, true, true)| && r.neither == |Pairs(a, b, false, false)|
      && (r.exact <==> d < 25)
      && (r.exact ==> r.statistic == Min(r.aOnly, r.bOnly) as real)
      && (r.exact ==> Share(r.p, Outcomes(d, 0, Extreme(d, Min(r.aOnly, r.bOnly))), Pow2(d)))
      && (!r.exact ==> Corrected(r.statistic, r.aOnly - r.bOnly, d) && r.p == tail(r.statistic))
  {
    if |a| == |b| {
      CellsSum(a, b);
      CountsPairs(a, b, true, false);
      CountsPairs(a, b, false, true);
      CountsPairs(a, b, true, true);
      CountsPairs(a, b, false, false);
      var x, y := Count(a, b, true, false), Count(a, b, false, true);
      if x + y > 0 {
        ExactIsProbability(x, y);
        IsCorrected(x, y);
      } else {
        NoPairs();
      }
      hide Count, Pairs, ExactP, ChiSquare, Outcomes, Extreme, Pow2, Share, Corrected;
    }
  }

  /** The statistic with the continuity correction, multiplied out. */
  predicate Corrected(statistic: real, gap: int, d: nat) {
    statistic * d as real == ((if gap < 0 then -gap else gap) - 1) as real * ((if gap < 0 then -gap else gap) - 1) as real
  }

  lemma IsCorrected(x: nat, y: nat)
    requires x + y > 0
    ensures Corrected(ChiSquare(x, y), x - y, x + y)
  {
    var gap := (if x > y then x - y else y - x) - 1;
    assert (gap * gap) as real == gap as real * gap as real;
    assert ChiSquare(x, y) * (x + y) as real == (gap * gap) as real;
  }

  lemma NoPairs()
    ensures Share(1.0, Outcomes(0, 0, Extreme(0, 0)), Pow2(0))
  {
    ExtremeAt(0, 0, 0);
  }

  // ---------------------------------------------------------------- Wilson

  /** The interval before it is clamped; `root` is the square root in it. */
  function Centre(p: real, t: real): real
    requires t >= 0.0
  {
    (p + t / 2.0) / (1.0 + t)
  }

  function Half(z: real, root: real, t: real): real
    requires t >= 0.0
  {
    z * root / (1.0 + t)
  }

  predicate Root(root: real, x: real) {
    root >= 0.0 && root * root == x
  }

  function Clamped(low: real, high: real): (real, real) {
    (if low < 0.0 then 0.0 else low, if high > 1.0 then 1.0 else high)
  }

  lemma NotNegative(z: real, n: int)
    requires n > 0
    ensures z * z / n as real >= 0.0
  {
    assert z * z >= 0.0;
  }

  /** wilson */
  function Wilson(k: int, n: int, z: real, root: real): Option<(real, real)> {
    if n <= 0 then None
    else
      var p, t := k as real / n as real, z * z / n as real;
      NotNegative(z, n);
      Some(Clamped(Centre(p, t) - Half(z, root, t), Centre(p, t) + Half(z, root, t)))
  }

  lemma Product(x: real, y: real)
    requires x >= 0.0 && y > 0.0
    ensures x * y >= 0.0
    ensures x > 0.0 ==> x * y > 0.0
  {
  }

  function Mul(x: real, y: real): real {
    x * y
  }

  lemma Less(a: real, b: real, c: real)
    requires a < b && c > 0.0
    ensures Mul(a, c) < Mul(b, c)
  {
  }

  lemma AtMost(a: real, b: real, c: real)
    requires a <= b && c >= 0.0
    ensures Mul(c, a) <= Mul(c, b)
  {
  }

  lemma LargerSquare(y: real, x: real)
    requires 0.0 <= y < x
    ensures Mul(y, y) < Mul(x, x)
  {
    hide Mul;
    Less(y, x, x);
    AtMost(y, x, y);
  }

  lemma Ordered(x: real, y: real)
    requires 0.0 <= y && x * x <= y * y
    ensures x <= y
  {
    if x > y { LargerSquare(y, x); }
  }

  lemma Grows(x: real, y: real, t: real)
    requires x >= 0.0 && y >= 0.0 && t >= 0.0
    ensures x * y * (1.0 + t) >= 0.0
  {
    assert x * y >= 0.0;
  }

  lemma BelowCentre(p: real, t: real, w: real)
    requires 0.0 <= p <= 1.0 && t >= 0.0 && w * w == t * p * (1.0 - p) + t * t / 4.0
    ensures w <= p + t / 2.0
  {
    var c := p + t / 2.0;
    assert c * c == p * p + p * t + t * t / 4.0;
    assert t * p * (1.0 - p) == t * p - t * p * p;
    assert c * c - w * w == p * p * (1.0 + t);
    Grows(p, p, t);
    Ordered(w, c);
  }

  lemma AboveGap(p: real, t: real, w: real)
    requires 0.0 <= p <= 1.0 && t >= 0.0 && w >= 0.0 && w * w == t * p * (1.0 - p) + t * t / 4.0
    ensures -w <= t * (p - 0.5) <= w
  {
    var gap, q := t * (p - 0.5), 1.0 - p;
    assert gap * gap == t * t * (p - 0.5) * (p - 0.5);
    assert (p - 0.5) * (p - 0.5) == 0.25 - p * q;
    assert gap * gap == t * t * 0.25 - t * t * (p * q);
    assert w * w - gap * gap == t * (p * q) * (1.0 + t);
    assert p * q >= 0.0;
    Grows(t, p * q, t);
    Ordered(gap, w);
    Ordered(-gap, w);
  }

  /** In p, t = z*z/n and w = z*root, of which the interval is made. */
  lemma WilsonCore(p: real, t: real, w: real)
    requires 0.0 <= p <= 1.0 && t >= 0.0 && w >= 0.0 && w * w == t * p * (1.0 - p) + t * t / 4.0
    ensures 0.0 <= p + t / 2.0 - w <= p * (1.0 + t) <= p + t / 2.0 + w <= 1.0 + t
  {
    var q := 1.0 - p;
    BelowCentre(p, t, w);
    assert t * q * (1.0 - q) == t * p * (1.0 - p);
    BelowCentre(q, t, w);
    AboveGap(p, t, w);
    assert p * (1.0 + t) == p + t / 2.0 + t * (p - 0.5);
  }

  /** The interval holds the rate and lies between 0 and 1 before any clamping. */
  lemma WilsonHoldsTheRate(k: int, n: int, z: real, root: real)
    requires 0 <= k <= n && n > 0 && z >= 0.0
    requires var p := k as real / n as real;
      Root(root, p * (1.0 - p) / n as real + z * z / (4.0 * (n * n) as real))
    ensures var p, t := k as real / n as real, z * z / n as real;
      t >= 0.0
      && var low, high := Centre(p, t) - Half(z, root, t), Centre(p, t) + Half(z, root, t);
      && 0.0 <= low <= p <= high <= 1.0
      && Wilson(k, n, z, root) == Some((low, high))
  {
    var m := n as real;
    var p, t, w := k as real / m, z * z / m, z * root;
    RateIsFraction(k, n);
    SquareParts(m, z, root, p);
    assert t >= 0.0;
    WilsonCore(p, t, w);
    Divides(p + t / 2.0 - w, p, p + t / 2.0 + w, 1.0 + t);
    Splits(p + t / 2.0, w, 1.0 + t);
  }

  /** The rates that are z standard errors, of their own, away from the one observed. */
  predicate Solves(x: real, p: real, t: real) {
    (p - x) * (p - x) == t * (x * (1.0 - x))
  }

  /** Both ends of the interval are such rates. */
  lemma WilsonEndsSolve(k: int, n: int, z: real, root: real)
    requires 0 <= k <= n && n > 0 && z >= 0.0
    requires var p := k as real / n as real;
      Root(root, p * (1.0 - p) / n as real + z * z / (4.0 * (n * n) as real))
    ensures var p, t := k as real / n as real, z * z / n as real;
      var r := Wilson(k, n, z, root);
      r.Some? && Solves(r.value.0, p, t) && Solves(r.value.1, p, t)
  {
    var m := n as real;
    var p, t, w := k as real / m, z * z / m, z * root;
    WilsonHoldsTheRate(k, n, z, root);
    RateIsFraction(k, n);
    SquareParts(m, z, root, p);
    hide Solves, Root, Wilson;
    EndsSolve(p, t, z, root, w);
  }

  lemma EndsSolve(p: real, t: real, z: real, root: real, w: real)
    requires t >= 0.0 && w == z * root && w * w == t * p * (1.0 - p) + t * t / 4.0
    ensures Solves(Centre(p, t) - Half(z, root, t), p, t) && Solves(Centre(p, t) + Half(z, root, t), p, t)
  {
    hide Solves;
    Splits(p + t / 2.0, w, 1.0 + t);
    Negated(w);
    EndSolves(p, t, -w, (p + t / 2.0 - w) / (1.0 + t));
    EndSolves(p, t, w, (p + t / 2.0 + w) / (1.0 + t));
  }

  lemma Negated(w: real)
    ensures (-w) * (-w) == w * w
  {
  }

  lemma EndSolves(p: real, t: real, w: real, x: real)
    requires t >= 0.0 && w * w == t * p * (1.0 - p) + t * t / 4.0
    requires x == (p + t / 2.0 + w) / (1.0 + t)
    ensures Solves(x, p, t)
  {
    var c, d := p + t / 2.0, 1.0 + t;
    var y := x * d;
    assert y == c + w;
    assert (y - c) * (y - c) == y * y - 2.0 * c * y + c * c;
    SquareOfCentre(p, t, w);
    assert y * y - 2.0 * c * y + p * p * d == 0.0;
    assert y * y == x * x * d * d && c * y == c * x * d;
    var e := x * x * d - 2.0 * c * x + p * p;
    assert e * d == 0.0;
    assert e == 0.0;
    assert x * x * d == x * x + t * (x * x);
    assert 2.0 * c * x == 2.0 * p * x + t * x;
    assert (p - x) * (p - x) == p * p - 2.0 * p * x + x * x;
    assert t * (x * (1.0 - x)) == t * x - t * (x * x);
  }

  lemma SquareOfCentre(p: real, t: real, w: real)
    requires w * w == t * p * (1.0 - p) + t * t / 4.0
    ensures (p + t / 2.0) * (p + t / 2.0) - w * w == p * p * (1.0 + t)
  {
    var c := p + t / 2.0;
    assert c * c == p * p + p * t + t * t / 4.0;
    assert t * p * (1.0 - p) == t * p - t * p * p;
  }

  lemma RateIsFraction(k: int, n: int)
    requires 0 <= k <= n && n > 0
    ensures 0.0 <= k as real / n as real <= 1.0
  {
  }

  lemma Cancel(x: real, y: real, m: real)
    requires m > 0.0 && x * m == y * m
    ensures x == y
  {
    if x > y { Product(x - y, m); }
    if y > x { Product(y - x, m); }
  }

  lemma SquareParts(m: real, z: real, root: real, p: real)
    requires m > 0.0 && z >= 0.0 && 0.0 <= p <= 1.0
    requires Root(root, p * (1.0 - p) / m + z * z / (4.0 * (m * m)))
    ensures z * root >= 0.0 && z * z / m >= 0.0
    ensures (z * root) * (z * root) == (z * z / m) * p * (1.0 - p) + (z * z / m) * (z * z / m) / 4.0
  {
    var q, u := p * (1.0 - p), z * z;
    assert (z * root) * (z * root) == u * (root * root);
    assert u * (q / m) == (u / m) * q;
    var v, e := u / m, u / (4.0 * (m * m));
    assert v * m == u && e * (4.0 * (m * m)) == u;
    assert (4.0 * m * e) * m == v * m;
    Cancel(4.0 * m * e, v, m);
    assert u * e == v * (m * e);
    assert m * e == v / 4.0;
    assert u >= 0.0;
  }

  lemma Divides(low: real, p: real, high: real, d: real)
    requires d >= 1.0 && 0.0 <= low <= p * d <= high <= d
    ensures 0.0 <= low / d <= p <= high / d <= 1.0
  {
    AtLeast(0.0, low, d);
    QuotientAtMost(low, p, d);
    AtLeast(p, high, d);
    QuotientAtMost(high, 1.0, d);
  }

  lemma Spread(x: real, y: real, d: real)
    requires d > 0.0 && x > y
    ensures x * d > y * d
  {
    Product(x - y, d);
    assert (x - y) * d == x * d - y * d;
  }

  lemma QuotientAtMost(x: real, bound: real, d: real)
    requires d > 0.0 && x <= bound * d
    ensures x / d <= bound
  {
    var q := x / d;
    assert q * d == x;
    if q > bound { Spread(q, bound, d); }
  }

  lemma AtLeast(bound: real, x: real, d: real)
    requires d > 0.0 && bound * d <= x
    ensures bound <= x / d
  {
    var q := x / d;
    assert q * d == x;
    if q < bound { Spread(bound, q, d); }
  }

  lemma Splits(c: real, w: real, d: real)
    requires d >= 1.0
    ensures (c - w) / d == c / d - w / d && (c + w) / d == c / d + w / d
  {
    var x, y, low, high := c / d, w / d, (c - w) / d, (c + w) / d;
    assert x * d == c && y * d == w;
    assert low * d == c - w && high * d == c + w;
    Cancel(low, x - y, d);
    Cancel(high, x + y, d);
  }
}
